/** The user's corrections of a work, and what taking them back restores. */
module WorkOverrides {
  import opened Common

  const CONTENT_TYPES := {"manga", "manhwa", "manhua", "comic", "book", "novel", "paper", "other", "unknown"}

  /** A value the caller does not mention, takes back, or sets. */
  datatype Patch = Keep | Clear | Put(value: string)

  datatype Value = Text(text: string) | Classified(kind: string, from: string)

  /** The row of a work, and its rows in `user_overrides`. */
  datatype Work = Work(kind: string, from: string, title: string, overrides: map<string, Value>)

  function Recorded(w: Work, field: string, v: Value): Work {
    w.(overrides := w.overrides[field := v])
  }

  function WithoutFields(w: Work, a: string, b: string): Work {
    w.(overrides := w.overrides - {a, b})
  }

  function KindSet(w: Work, p: Patch): Work {
    match p
    case Keep => w
    case Clear =>
      var bare := WithoutFields(w, "content_type", "source_content_type");
      if "source_content_type" in w.overrides && w.overrides["source_content_type"].Classified? then
        bare.(kind := w.overrides["source_content_type"].kind, from := w.overrides["source_content_type"].from)
      else if w.from != "user" then bare
      else bare.(kind := "unknown", from := "unknown")
    case Put(kind) =>
      var noted := if "source_content_type" !in w.overrides && w.from != "user"
                   then Recorded(w, "source_content_type", Classified(w.kind, w.from)) else w;
      Recorded(noted, "content_type", Text(kind)).(kind := kind, from := "user")
  }

  function TitleSet(w: Work, p: Patch): Work {
    match p
    case Keep => w
    case Clear =>
      var stored := if "source_title" in w.overrides && w.overrides["source_title"].Text?
                    then w.overrides["source_title"].text else "";
      WithoutFields(w, "display_title", "source_title").(title := if stored != "" then stored else w.title)
    case Put(title) =>
      var noted := if "source_title" !in w.overrides then Recorded(w, "source_title", Text(w.title)) else w;
      Recorded(noted, "display_title", Text(title)).(title := title)
  }

  datatype Edit = Edit(kind: Patch, title: Patch)

  const CLEAR_ALL := Edit(Clear, Clear)

  const MAX_TEXT := 500

  /** An unknown type, and a title that is blank or, without the blanks around it, too long, is refused. */
  predicate Acceptable(e: Edit) {
    && (e.kind.Put? ==> e.kind.value in CONTENT_TYPES)
    && (e.title.Put? ==> Stripped(e.title.value) != "" && |Stripped(e.title.value)| <= MAX_TEXT)
  }

  /** The title is kept without the blanks around it. */
  function Trimmed(p: Patch): Patch {
    if p.Put? then Put(Stripped(p.value)) else p
  }

  /** `set_work`. */
  function Edited(w: Work, e: Edit): Work {
    if !Acceptable(e) then w else TitleSet(KindSet(w, e.kind), Trimmed(e.title))
  }

  function After(w: Work, es: seq<Edit>): Work {
    if es == [] then w else Edited(After(w, es[..|es| - 1]), es[|es| - 1])
  }

  /** Nothing of the work is corrected. */
  predicate Uncorrected(w: Work) {
    w.from != "user" && w.overrides == map[]
  }

  predicate TitleGiven(es: seq<Edit>) {
    exists e :: e in es && Acceptable(e) && e.title.Put?
  }

  /** What is remembered of the source while corrections stand. */
  ghost predicate Remembers(w0: Work, w: Work, titled: bool) {
    && w.overrides.Keys <= {"content_type", "source_content_type", "display_title", "source_title"}
    && (if "source_content_type" in w.overrides then w.overrides["source_content_type"] == Classified(w0.kind, w0.from)
        else "content_type" !in w.overrides && w.kind == w0.kind && w.from == w0.from)
    && (w0.title != "" || !titled ==>
          if "source_title" in w.overrides then w.overrides["source_title"] == Text(w0.title) && titled
          else "display_title" !in w.overrides && w.title == w0.title)
    && (w0.title == "" && titled ==>
          w.title != "" && ("source_title" in w.overrides ==> w.overrides["source_title"].Text?))
    && ("display_title" in w.overrides ==> "source_title" in w.overrides)
  }

  lemma KindRemembers(w0: Work, w: Work, p: Patch, titled: bool)
    requires w0.from != "user" && Remembers(w0, w, titled)
    ensures Remembers(w0, KindSet(w, p), titled)
  {
  }

  lemma TitleRemembers(w0: Work, w: Work, p: Patch, titled: bool)
    requires Remembers(w0, w, titled) && (p.Put? ==> p.value != "")
    ensures Remembers(w0, TitleSet(w, p), titled || p.Put?)
  {
  }

  lemma {:induction false} AlwaysRemembers(w0: Work, es: seq<Edit>)
    requires Uncorrected(w0)
    ensures Remembers(w0, After(w0, es), TitleGiven(es))
  {
    if es != [] {
      hide Remembers, KindSet, TitleSet, Acceptable;
      var k := |es| - 1;
      AlwaysRemembers(w0, es[..k]);
      var before, titled := After(w0, es[..k]), TitleGiven(es[..k]);
      assert es == es[..k] + [es[k]];
      assert TitleGiven(es) <==> titled || (Acceptable(es[k]) && es[k].title.Put?);
      if Acceptable(es[k]) {
        AcceptableTitle(es[k]);
        KindRemembers(w0, before, es[k].kind, titled);
        TitleRemembers(w0, KindSet(before, es[k].kind), Trimmed(es[k].title), titled);
      }
    } else {
      assert !TitleGiven(es);
    }
  }

  lemma AcceptableTitle(e: Edit)
    requires Acceptable(e)
    ensures Trimmed(e.title).Put? <==> e.title.Put?
    ensures e.title.Put? ==> Trimmed(e.title).value != ""
  {
  }

  /**
   Whatever was corrected, and however often, taking everything back restores the work exactly as the source
   left it: except that an empty source title, once corrected, is forgotten.
   */
  lemma ClearRestoresIff(w0: Work, es: seq<Edit>)
    requires Uncorrected(w0)
    ensures Edited(After(w0, es), CLEAR_ALL) == w0 <==> w0.title != "" || !TitleGiven(es)
    ensures Uncorrected(Edited(After(w0, es), CLEAR_ALL))
  {
    AlwaysRemembers(w0, es);
    var w := After(w0, es);
    var k := KindSet(w, Clear);
    KindRemembers(w0, w, Clear, TitleGiven(es));
    assert k.kind == w0.kind && k.from == w0.from;
    var t := TitleSet(k, Clear);
    assert t.overrides == map[];
  }

  // ---- What a work shows -------------------------------------------------------------------------

  /** The last type the user gave and did not take back. */
  function KindSaid(es: seq<Edit>): Option<string> {
    if es == [] then None
    else
      var e := es[|es| - 1];
      if !InBounds(e) then KindSaid(es[..|es| - 1])
      else match e.kind
           case Keep => KindSaid(es[..|es| - 1])
           case Clear => None
           case Put(kind) => Some(kind)
  }

  /** A type of the list, and a title that has from one to five hundred characters without the blanks around it. */
  predicate InBounds(e: Edit) {
    && (e.kind.Put? ==> e.kind.value in CONTENT_TYPES)
    && (e.title.Put? ==> 1 <= |Stripped(e.title.value)| <= 500)
  }

  function TitleSaid(es: seq<Edit>): Option<string> {
    if es == [] then None
    else
      var e := es[|es| - 1];
      if !InBounds(e) then TitleSaid(es[..|es| - 1])
      else match e.title
           case Keep => TitleSaid(es[..|es| - 1])
           case Clear => None
           case Put(title) => Some(Stripped(title))
  }

  /** The row of a work with these corrections, over what its source gave. */
  ghost predicate ShowsLastWords(w0: Work, w: Work, kind: Option<string>, title: Option<string>) {
    && (if kind.Some? then w.kind == kind.value && w.from == "user" else w.kind == w0.kind && w.from == w0.from)
    && (if "content_type" in w.overrides then kind.Some? && w.overrides["content_type"] == Text(kind.value) else kind.None?)
    && (w0.title != "" ==> w.title == if title.Some? then title.value else w0.title)
    && (title.Some? ==> w.title == title.value)
    && (if "display_title" in w.overrides then title.Some? && w.overrides["display_title"] == Text(title.value)
        else title.None?)
  }

  lemma KindShows(w0: Work, w: Work, p: Patch, kind: Option<string>, title: Option<string>, titled: bool)
    requires w0.from != "user" && Remembers(w0, w, titled) && ShowsLastWords(w0, w, kind, title)
    ensures ShowsLastWords(w0, KindSet(w, p),
                           match p case Keep => kind case Clear => None case Put(k) => Some(k), title)
  {
  }

  lemma TitleShows(w0: Work, w: Work, p: Patch, kind: Option<string>, title: Option<string>, titled: bool)
    requires Remembers(w0, w, titled) && ShowsLastWords(w0, w, kind, title)
    ensures ShowsLastWords(w0, TitleSet(w, p), kind,
                           match p case Keep => title case Clear => None case Put(t) => Some(t))
  {
  }

  lemma InBoundsIff(e: Edit)
    ensures InBounds(e) <==> Acceptable(e)
  {
  }

  /**
   After any corrections of an uncorrected work, accepted or refused, it shows what the user last said of type and title
   and did not take back, and else what its source gave; and exactly those words are recorded.
   */
  lemma {:induction false} LastWordsShown(w0: Work, es: seq<Edit>)
    requires Uncorrected(w0)
    ensures ShowsLastWords(w0, After(w0, es), KindSaid(es), TitleSaid(es))
  {
    if es != [] {
      hide Remembers, KindSet, TitleSet, ShowsLastWords, Acceptable, InBounds;
      var k := |es| - 1;
      LastWordsShown(w0, es[..k]);
      AlwaysRemembers(w0, es[..k]);
      InBoundsIff(es[k]);
      var before, titled := After(w0, es[..k]), TitleGiven(es[..k]);
      if InBounds(es[k]) {
        KindShows(w0, before, es[k].kind, KindSaid(es[..k]), TitleSaid(es[..k]), titled);
        KindRemembers(w0, before, es[k].kind, titled);
        TitleShows(w0, KindSet(before, es[k].kind), Trimmed(es[k].title), KindSaid(es), TitleSaid(es[..k]), titled);
      }
    } else {
      assert ShowsLastWords(w0, w0, None, None);
    }
  }

  class WorkRow {
    var kind: string
    var from: string
    var title: string
    var overrides: map<string, Value>

    ghost function State(): Work
      reads this
    {
      Work(kind, from, title, overrides)
    }

    constructor (kind: string, from: string, title: string)
      ensures State() == Work(kind, from, title, map[])
    {
      this.kind, this.from, this.title, this.overrides := kind, from, title, map[];
    }

    method SetKind(p: Patch)
      modifies this`kind, this`from, this`overrides
      ensures State() == KindSet(old(State()), p)
    {
      match p {
        case Keep =>
        case Clear =>
          if "source_content_type" in overrides && overrides["source_content_type"].Classified? {
            kind, from := overrides["source_content_type"].kind, overrides["source_content_type"].from;
          } else if from == "user" {
            kind, from := "unknown", "unknown";
          }
          overrides := overrides - {"content_type", "source_content_type"};
        case Put(v) =>
          if "source_content_type" !in overrides && from != "user" {
            overrides := overrides["source_content_type" := Classified(kind, from)];
          }
          overrides := overrides["content_type" := Text(v)];
          kind, from := v, "user";
      }
    }

    method SetTitle(p: Patch)
      modifies this`title, this`overrides
      ensures State() == TitleSet(old(State()), p)
    {
      match p {
        case Keep =>
        case Clear =>
          if "source_title" in overrides && overrides["source_title"].Text? && overrides["source_title"].text != "" {
            title := overrides["source_title"].text;
          }
          overrides := overrides - {"display_title", "source_title"};
        case Put(v) =>
          if "source_title" !in overrides {
            overrides := overrides["source_title" := Text(title)];
          }
          overrides := overrides["display_title" := Text(v)];
          title := v;
      }
    }

    method SetWork(e: Edit) returns (ok: bool)
      modifies this
      ensures ok == Acceptable(e) && State() == Edited(old(State()), e)
    {
      ok := Acceptable(e);
      if ok {
        SetKind(e.kind);
        SetTitle(Trimmed(e.title));
      }
    }
  }
}

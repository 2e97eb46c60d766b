/** Page downloads that are stopped anywhere and run again: they end exactly as an undisturbed one would. */
module DownloadPages {
  import opened Common

  type Bytes = seq<int>

  /** What the source answers for an address, always the same; how bytes are hashed; what counts as an image. */
  datatype World = World(fetch: string -> Fetch, hash: Bytes -> string, image: Bytes -> bool)

  datatype Fetch = Fetch(status: nat, body: Bytes)

  ghost predicate CollisionFree(w: World) {
    forall a, b :: w.hash(a) == w.hash(b) ==> a == b
  }

  datatype Page = Page(url: string, sha: string, size: nat)

  /** The page files in the staging area, by index, and the `pages` part of the manifest. */
  datatype Area = Area(files: map<nat, Bytes>, pages: map<nat, Page>)

  const EMPTY := Area(map[], map[])

  datatype Result =
    | Stopped                              // the process died, or the job was canceled
    | BadStatus(index: nat)
    | NotAnImage(index: nat)
    | MissingPages
    | Packaged(book: seq<Bytes>)

  /** Where a run is stopped: before page `index`, or while its file is in place but not yet in the manifest. */
  datatype Stop = Never | Before(index: nat) | Within(index: nat)

  // ---- The run -----------------------------------------------------------------------------------

  /** Indices the new resource list does not have are forgotten. */
  function Trimmed(pages: map<nat, Page>, n: nat): map<nat, Page> {
    map i | i in pages && 1 <= i <= n :: pages[i]
  }

  /** The page is there already: same address, and the file still has the recorded hash. */
  predicate Kept(w: World, a: Area, i: nat, url: string) {
    i in a.pages && a.pages[i].url == url && i in a.files && w.hash(a.files[i]) == a.pages[i].sha
  }

  function Placed(a: Area, i: nat, body: Bytes): Area {
    a.(files := a.files[i := body])
  }

  function Noted(w: World, a: Area, i: nat, url: string, body: Bytes): Area {
    a.(pages := a.pages[i := Page(url, w.hash(body), |body|)])
  }

  /** Pages `1..k`; `None` while nothing has gone wrong. */
  function Fetched(w: World, a: Area, urls: seq<string>, k: nat, stop: Stop): (Option<Result>, Area)
    requires k <= |urls|
  {
    if k == 0 then (None, a)
    else
      var (r, b) := Fetched(w, a, urls, k - 1, stop);
      if r.Some? then (r, b) else OnePage(w, b, k, urls[k - 1], stop)
  }

  function OnePage(w: World, a: Area, i: nat, url: string, stop: Stop): (Option<Result>, Area) {
    if stop == Before(i) then (Some(Stopped), a)
    else if Kept(w, a, i, url) then (None, a)
    else
      var f := w.fetch(url);
      if f.status != 200 then (Some(BadStatus(i)), a)
      else if !w.image(f.body) then (Some(NotAnImage(i)), a)
      else if stop == Within(i) then (Some(Stopped), Placed(a, i, f.body))
      else (None, Noted(w, Placed(a, i, f.body), i, url, f.body))
  }

  /** Every file of the run, in the order of the resources. */
  predicate AllThere(a: Area, n: nat) {
    forall i :: 1 <= i <= n ==> i in a.files
  }

  function Book(a: Area, n: nat): (r: seq<Bytes>)
    requires AllThere(a, n)
    ensures |r| == n && forall i :: 0 <= i < n ==> r[i] == a.files[i + 1]
  {
    if n == 0 then [] else Book(a, n - 1) + [a.files[n]]
  }

  /** `_download_pages`. */
  function Run(w: World, a: Area, urls: seq<string>, stop: Stop): (Result, Area) {
    var (r, b) := Fetched(w, a.(pages := Trimmed(a.pages, |urls|)), urls, |urls|, stop);
    if r.Some? then (r.value, b)
    else if stop == Before(|urls| + 1) then (Stopped, b)
    else if |b.pages| != |urls| || !AllThere(b, |urls|) then (MissingPages, b)
    else (Packaged(Book(b, |urls|)), b)
  }

  /** A list that did not change forgets nothing, and one that did only what lies beyond it. */
  lemma TrimmedExactly(pages: map<nat, Page>, n: nat)
    ensures var kept := Trimmed(pages, n);
            && (forall i :: i in kept ==> i in pages && kept[i] == pages[i])
            && (forall i :: i in pages && i !in kept ==> i == 0 || i > n)
            && (forall i :: i in kept ==> i != 0 && i <= n)
  {
  }

  // ---- What earlier runs leave -------------------------------------------------------------------

  /** Every manifest entry was written for an image the address really gave. */
  ghost predicate True(w: World, pages: map<nat, Page>) {
    forall i :: i in pages ==>
      var f := w.fetch(pages[i].url);
      f.status == 200 && w.image(f.body) && pages[i].sha == w.hash(f.body) && pages[i].size == |f.body|
  }

  predicate Good(w: World, url: string) {
    w.fetch(url).status == 200 && w.image(w.fetch(url).body)
  }

  /** After the pages `1..k` of a run that nothing has stopped. */
  ghost predicate Done(w: World, a: Area, urls: seq<string>, k: nat)
    requires k <= |urls|
  {
    && True(w, a.pages)
    && (forall i :: i in a.pages ==> 1 <= i <= |urls|)
    && forall j :: 0 <= j < k ==> Right(w, a, j + 1, urls[j])
  }

  /** The page is the image its address gives, and noted so. */
  predicate Right(w: World, a: Area, i: nat, url: string) {
    Good(w, url) && i in a.files && a.files[i] == w.fetch(url).body && i in a.pages && a.pages[i].url == url
  }

  lemma OnePageDone(w: World, a: Area, urls: seq<string>, k: nat, stop: Stop)
    requires CollisionFree(w) && 0 < k <= |urls| && Done(w, a, urls, k - 1)
    ensures var (r, b) := OnePage(w, a, k, urls[k - 1], stop);
            && True(w, b.pages)
            && (r.None? ==> Done(w, b, urls, k))
            && (stop == Never ==> (r.None? <==> Good(w, urls[k - 1])))
            && (Good(w, urls[k - 1]) ==> r.None? || r == Some(Stopped))
  {
    hide CollisionFree;
    var url := urls[k - 1];
    if Kept(w, a, k, url) {
      KeptIsFetched(w, a, k, url);
    } else {
      var (r, b) := OnePage(w, a, k, url, stop);
      if r.None? {
        forall j | 0 <= j < k ensures Right(w, b, j + 1, urls[j]) {
          assert j < k - 1 ==> Right(w, a, j + 1, urls[j]);
        }
      }
    }
  }

  /** A page that is kept is the image its address gives. */
  lemma KeptIsFetched(w: World, a: Area, i: nat, url: string)
    requires CollisionFree(w) && True(w, a.pages) && Kept(w, a, i, url)
    ensures Good(w, url) && a.files[i] == w.fetch(url).body
  {
  }

  lemma {:induction false} FetchedDone(w: World, a: Area, urls: seq<string>, k: nat, stop: Stop)
    requires CollisionFree(w) && k <= |urls| && Done(w, a, urls, 0)
    ensures var (r, b) := Fetched(w, a, urls, k, stop);
            && True(w, b.pages)
            && (r.None? ==> Done(w, b, urls, k))
            && (stop == Never ==> (r.None? <==> forall i :: 0 <= i < k ==> Good(w, urls[i])))
            && (r.Some? ==> r.value.Stopped? || r.value.BadStatus? || r.value.NotAnImage?)
  {
    if k > 0 {
      hide OnePage, CollisionFree;
      FetchedDone(w, a, urls, k - 1, stop);
      var (r, b) := Fetched(w, a, urls, k - 1, stop);
      if r.None? {
        OnePageDone(w, b, urls, k, stop);
        OnePageAnswers(w, b, k, urls[k - 1], stop);
      }
    }
  }

  /** The answer for the first address of the first `k` that gives no image. */
  function FirstBad(w: World, urls: seq<string>, k: nat): Option<Result>
    requires k <= |urls|
  {
    if k == 0 then None
    else
      var before := FirstBad(w, urls, k - 1);
      if before.Some? || Good(w, urls[k - 1]) then before
      else if w.fetch(urls[k - 1]).status != 200 then Some(BadStatus(k))
      else Some(NotAnImage(k))
  }

  /** Undisturbed, a run answers by the addresses alone, whatever was there before. */
  lemma {:induction false} FetchedAnswer(w: World, a: Area, urls: seq<string>, k: nat)
    requires CollisionFree(w) && k <= |urls| && Done(w, a, urls, 0)
    ensures Fetched(w, a, urls, k, Never).0 == FirstBad(w, urls, k)
  {
    if k > 0 {
      hide CollisionFree, True, Right;
      FetchedAnswer(w, a, urls, k - 1);
      FetchedDone(w, a, urls, k - 1, Never);
      var (r, b) := Fetched(w, a, urls, k - 1, Never);
      if r.None? && Kept(w, b, k, urls[k - 1]) {
        DoneTrue(w, b, urls, k - 1);
        KeptIsFetched(w, b, k, urls[k - 1]);
      }
    }
  }

  lemma DoneTrue(w: World, a: Area, urls: seq<string>, k: nat)
    requires k <= |urls| && Done(w, a, urls, k)
    ensures True(w, a.pages)
  {
  }

  lemma OnePageAnswers(w: World, a: Area, i: nat, url: string, stop: Stop)
    ensures var r := OnePage(w, a, i, url, stop).0;
            r.Some? ==> r.value.Stopped? || r.value.BadStatus? || r.value.NotAnImage?
  {
  }

  lemma {:induction false} IndexCount(s: set<nat>, n: nat)
    requires forall i :: i in s <==> 1 <= i <= n
    ensures |s| == n
  {
    if n == 0 {
      assert s == {};
    } else {
      IndexCount(s - {n}, n - 1);
    }
  }

  /** The book an undisturbed run makes. */
  function Expected(w: World, urls: seq<string>): (r: seq<Bytes>)
    ensures |r| == |urls| && forall i :: 0 <= i < |r| ==> r[i] == w.fetch(urls[i]).body
  {
    if urls == [] then [] else Expected(w, urls[..|urls| - 1]) + [w.fetch(urls[|urls| - 1]).body]
  }

  /** The manifest it leaves. */
  function Manifest(w: World, urls: seq<string>): (r: map<nat, Page>)
    ensures forall i :: i in r <==> 1 <= i <= |urls|
    ensures forall i :: i in r ==>
              r[i] == Page(urls[i - 1], w.hash(w.fetch(urls[i - 1]).body), |w.fetch(urls[i - 1]).body|)
  {
    if urls == [] then map[]
    else
      var k := |urls| - 1;
      var body := w.fetch(urls[k]).body;
      Manifest(w, urls[..k])[k + 1 := Page(urls[k], w.hash(body), |body|)]
  }

  lemma AllInPlace(w: World, a: Area, urls: seq<string>)
    requires Done(w, a, urls, |urls|)
    ensures AllThere(a, |urls|) && Book(a, |urls|) == Expected(w, urls) && a.pages == Manifest(w, urls)
    ensures forall i :: i in a.pages <==> 1 <= i <= |urls|
  {
    forall i | 1 <= i <= |urls|
      ensures i in a.files && i in a.pages && a.files[i] == w.fetch(urls[i - 1]).body && a.pages[i].url == urls[i - 1]
    {
      assert Right(w, a, i - 1 + 1, urls[i - 1]);
    }
    assert AllThere(a, |urls|);
    assert Book(a, |urls|) == Expected(w, urls);
  }

  /**
   One run, whatever an earlier one left: if it packages anything, the book holds exactly the image each
   address gives, in order, and the manifest says so of exactly the indices 1 to n; undisturbed, it answers what
   the first address without an image makes it answer. The page count always matches: its error cannot occur.
   */
  lemma RunIsExact(w: World, a: Area, urls: seq<string>, stop: Stop)
    requires CollisionFree(w) && True(w, a.pages)
    ensures var (r, b) := Run(w, a, urls, stop);
            && True(w, b.pages)
            && r != MissingPages
            && (r.Packaged? ==> r.book == Expected(w, urls) && b.pages == Manifest(w, urls))
            && (stop == Never ==>
                  r == if FirstBad(w, urls, |urls|).Some? then FirstBad(w, urls, |urls|).value
                       else Packaged(Expected(w, urls)))
  {
    hide CollisionFree, Fetched, Good, FirstBad, Manifest;
    var start := a.(pages := Trimmed(a.pages, |urls|));
    FetchedDone(w, start, urls, |urls|, stop);
    if stop == Never { FetchedAnswer(w, start, urls, |urls|); }
    var (r, b) := Fetched(w, start, urls, |urls|, stop);
    if r.None? {
      assert forall j :: 0 <= j < |urls| ==> Right(w, b, j + 1, urls[j]);
      AllInPlace(w, b, urls);
      IndexCount(b.pages.Keys, |urls|);
    }
  }

  // ---- Every history -----------------------------------------------------------------------------

  datatype Event =
    | Ran(urls: seq<string>, stop: Stop)
    | FileLost(index: nat)
    | FileDamaged(index: nat, body: Bytes)
    | AreaLost
    | Fresh

  function Next(w: World, a: Area, ev: Event): Area {
    match ev
    case Ran(urls, stop) => Run(w, a, urls, stop).1
    case FileLost(i) => a.(files := a.files - {i})
    case FileDamaged(i, body) => a.(files := a.files[i := body])
    case AreaLost => a.(files := map[])
    case Fresh => EMPTY
  }

  function After(w: World, evs: seq<Event>): Area {
    if evs == [] then EMPTY else Next(w, After(w, evs[..|evs| - 1]), evs[|evs| - 1])
  }

  lemma {:induction false} AlwaysTrue(w: World, evs: seq<Event>)
    requires CollisionFree(w)
    ensures True(w, After(w, evs).pages)
  {
    if evs != [] {
      hide CollisionFree, Run;
      AlwaysTrue(w, evs[..|evs| - 1]);
      match evs[|evs| - 1]
      case Ran(urls, stop) => RunIsExact(w, After(w, evs[..|evs| - 1]), urls, stop);
      case _ =>
    }
  }

  /**
   After any history of runs over any lists, stopped anywhere, and of lost or damaged files, one more run
   answers exactly as a run in an empty area does, failures included; and if it packages a book it leaves the
   same manifest.
   */
  lemma ResumedEqualsFresh(w: World, evs: seq<Event>, urls: seq<string>)
    requires CollisionFree(w)
    ensures var (r, b) := Run(w, After(w, evs), urls, Never);
            var (anew, clean) := Run(w, EMPTY, urls, Never);
            r == anew && (r.Packaged? ==> b.pages == clean.pages)
  {
    hide CollisionFree, Run, Good;
    AlwaysTrue(w, evs);
    RunIsExact(w, After(w, evs), urls, Never);
    RunIsExact(w, EMPTY, urls, Never);
  }

  // ---- The pages on disk -------------------------------------------------------------------------

  class PageDownload {
    const world: World
    var files: map<nat, Bytes>
    var pages: map<nat, Page>

    ghost function State(): Area
      reads this
    {
      Area(files, pages)
    }

    constructor (world: World)
      ensures this.world == world && State() == EMPTY
    {
      this.world := world;
      files, pages := map[], map[];
    }

    method DropStale(n: nat)
      modifies this`pages
      ensures pages == Trimmed(old(pages), n)
    {
      var stale := set i | i in pages && !(1 <= i <= n);
      var kept := pages;
      while stale != {}
        invariant kept == pages - ((set i | i in pages && !(1 <= i <= n)) - stale)
        invariant stale <= set i | i in pages && !(1 <= i <= n)
        invariant pages == old(pages)
      {
        var i :| i in stale;
        kept := kept - {i};
        stale := stale - {i};
      }
      pages := kept;
    }

    method NextPage(i: nat, url: string, stop: Stop) returns (r: Option<Result>)
      modifies this`files, this`pages
      ensures (r, State()) == OnePage(world, old(State()), i, url, stop)
    {
      if stop == Before(i) {
        return Some(Stopped);
      }
      if Kept(world, Area(files, pages), i, url) {
        return None;
      }
      var f := world.fetch(url);
      if f.status != 200 {
        return Some(BadStatus(i));
      }
      if !world.image(f.body) {
        return Some(NotAnImage(i));
      }
      files := files[i := f.body];
      if stop == Within(i) {
        return Some(Stopped);
      }
      pages := pages[i := Page(url, world.hash(f.body), |f.body|)];
      r := None;
    }

    method DownloadPages(urls: seq<string>, stop: Stop) returns (r: Result)
      modifies this`files, this`pages
      ensures (r, State()) == Run(world, old(State()), urls, stop)
    {
      hide OnePage;
      DropStale(|urls|);
      ghost var start := State();
      for i := 1 to |urls| + 1
        invariant (None, State()) == Fetched(world, start, urls, i - 1, stop)
      {
        var problem := NextPage(i, urls[i - 1], stop);
        if problem.Some? {
          StaysStopped(world, start, urls, i, |urls|, stop);
          return problem.value;
        }
      }
      if stop == Before(|urls| + 1) {
        return Stopped;
      }
      var area := Area(files, pages);
      if |pages| != |urls| || !AllThere(area, |urls|) {
        return MissingPages;
      }
      r := Packaged(Book(area, |urls|));
    }
  }

  lemma {:induction false} StaysStopped(w: World, a: Area, urls: seq<string>, k: nat, n: nat, stop: Stop)
    requires k <= n <= |urls| && Fetched(w, a, urls, k, stop).0.Some?
    ensures Fetched(w, a, urls, n, stop) == Fetched(w, a, urls, k, stop)
  {
    if k < n {
      StaysStopped(w, a, urls, k, n - 1, stop);
    }
  }
}

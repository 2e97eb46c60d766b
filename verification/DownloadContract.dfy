/** Extraction contracts, the settings they are resolved from, and what happens after a failed attempt. */
module DownloadContract {
  import opened Common

  const METHODS := {"direct", "html_api", "reader_media", "browser"}
  const MODES := {"preferred_ask", "strict", "automatic"}
  const SCOPES := {"global", "source", "work", "content_type"}
  const DEFAULT_MODE := "preferred_ask"

  /** Failures that another extraction method could plausibly fix. */
  const METHOD_SPECIFIC := {"parser_failure", "selector_missing", "media_invalid", "not_found",
                            "unexpected_response", "resource_missing"}

  /** Failures that the same request cannot fix. */
  const TERMINAL := {"source_unlinked", "too_large", "format_unavailable"}

  const WAITING := {"auth_failure", "rate_limit"}

  // The extraction method is called `way`, `method` being a keyword.

  // ---- Contracts ---------------------------------------------------------------------------------

  datatype Contract = Contract(
    source: string, language: string, unit: string, output: string, way: string, mode: string,
    order: seq<string>, attempted: seq<string>, fileFormat: Option<string>)

  /** A new contract is refused for an unknown method or mode, and starts as its own first attempt. */
  function Made(c: Contract): (r: Option<Contract>)
  {
    if c.way !in METHODS || c.mode !in MODES then None
    else if c.attempted == [] then Some(c.(attempted := [c.way])) else Some(c)
  }

  function WithMethod(c: Contract, way: string): Option<Contract> {
    Made(c.(way := way, attempted := c.attempted + [way]))
  }

  /** What a contract fixes, whatever happens to its download. */
  predicate SamePromise(a: Contract, b: Contract) {
    a.source == b.source && a.language == b.language && a.unit == b.unit && a.output == b.output
    && a.fileFormat == b.fileFormat && a.mode == b.mode && a.order == b.order
  }

  predicate WellMade(c: Contract) {
    && c.way in METHODS && c.mode in MODES && c.attempted != []
    && c.attempted[|c.attempted| - 1] == c.way
    && (forall m :: m in c.order ==> m in METHODS)
    && forall m :: m in c.attempted ==> m in METHODS
  }

  // ---- Settings ----------------------------------------------------------------------------------

  datatype Value = Text(text: string) | List(items: seq<string>) | Other

  type Store = map<(string, string, string), Value>

  predicate Settable(scope: string, key: string, value: Value) {
    && scope in SCOPES
    && (key == "extraction.method" ==> value.Text? && value.text in METHODS)
    && (key == "extraction.mode" ==> value.Text? && value.text in MODES)
    && (key == "extraction.fallback_order" ==> value.List? && forall m :: m in value.items ==> m in METHODS)
  }

  ghost predicate Sane(store: Store) {
    forall scope, id, key :: (scope, id, key) in store ==> Settable(scope, key, store[(scope, id, key)])
  }

  /** A text setting; a list or an empty text counts as absent where the source tests truth. */
  function Texted(store: Store, scope: string, id: string, key: string): Option<string> {
    if (scope, id, key) in store && store[(scope, id, key)].Text? then Some(store[(scope, id, key)].text) else None
  }

  function Listed(store: Store, scope: string, id: string, key: string): seq<string> {
    if (scope, id, key) in store && store[(scope, id, key)].List? then store[(scope, id, key)].items else []
  }

  class Settings {
    var store: Store

    constructor ()
      ensures store == map[] && Sane(store)
    {
      store := map[];
    }

    method Set(scope: string, id: Option<string>, key: string, value: Value) returns (ok: bool)
      requires Sane(store)
      modifies this
      ensures Sane(store)
      ensures ok <==> Settable(scope, key, value)
      ensures store == if ok then old(store)[(scope, if id.Some? then id.value else "", key) := value] else old(store)
    {
      ok := Settable(scope, key, value);
      if ok {
        store := store[(scope, if id.Some? then id.value else "", key) := value];
      }
    }

    method Delete(scope: string, id: Option<string>, key: string)
      requires Sane(store)
      modifies this
      ensures Sane(store)
      ensures store == old(store) - {(scope, if id.Some? then id.value else "", key)}
    {
      store := store - {(scope, if id.Some? then id.value else "", key)};
    }
  }

  // ---- Choosing the method -----------------------------------------------------------------------

  datatype Origin = OneTime | SourceSetting | GlobalSetting | Plugin

  datatype Resolved = Resolved(way: string, mode: string, origin: Origin, order: seq<string>)

  function FirstOf(a: Option<string>, b: Option<string>): Option<string> {
    if a.Some? then a else b
  }

  function Resolve(store: Store, source: string, recommendation: Option<string>, oneTime: Option<string>): Option<Resolved> {
    var bySource := Texted(store, "source", source, "extraction.method");
    var byGlobal := Texted(store, "global", "", "extraction.method");
    var (way, origin) :=
      if oneTime.Some? then (oneTime.value, OneTime)
      else if bySource.Some? then (bySource.value, SourceSetting)
      else if byGlobal.Some? then (byGlobal.value, GlobalSetting)
      else (if recommendation.Some? && recommendation.value != "" then recommendation.value else "html_api", Plugin);
    if way !in METHODS then None
    else
      var mode := FirstOf(Texted(store, "source", source, "extraction.mode"), Texted(store, "global", "", "extraction.mode"));
      var own := Listed(store, "source", source, "extraction.fallback_order");
      Some(Resolved(way, if mode.Some? then mode.value else DEFAULT_MODE, origin,
                    if own != [] then own else Listed(store, "global", "", "extraction.fallback_order")))
  }

  /** What a job is queued with; `None` where the enqueue is refused. */
  function Queued(r: Resolved, source: string, language: string, unit: string, output: string): Option<Contract> {
    Made(Contract(source, language, unit, output, r.way, r.mode, r.order, [], None))
  }

  /**
   Only a one-time choice or the plugin's recommendation can be refused: whatever the settings hold, the
   resolved method, mode and every fallback are known ones, so the contract built from them is accepted.
   */
  lemma ResolvedIsUsable(
    store: Store, source: string, recommendation: Option<string>, oneTime: Option<string>,
    language: string, unit: string, output: string)
    requires Sane(store)
    ensures var r := Resolve(store, source, recommendation, oneTime);
            && (r.None? ==> (oneTime.Some? && oneTime.value !in METHODS)
                            || (oneTime.None? && recommendation.Some? && recommendation.value !in METHODS))
            && (r.Some? ==> var c := Queued(r.value, source, language, unit, output);
                            c.Some? && WellMade(c.value) && c.value.attempted == [r.value.way])
  {
    var bySource := ("source", source, "extraction.method");
    var byGlobal := ("global", "", "extraction.method");
    assert bySource in store ==> Settable("source", "extraction.method", store[bySource]);
    assert byGlobal in store ==> Settable("global", "extraction.method", store[byGlobal]);
    var ownMode := ("source", source, "extraction.mode");
    var allMode := ("global", "", "extraction.mode");
    assert ownMode in store ==> Settable("source", "extraction.mode", store[ownMode]);
    assert allMode in store ==> Settable("global", "extraction.mode", store[allMode]);
    var ownOrder := ("source", source, "extraction.fallback_order");
    var allOrder := ("global", "", "extraction.fallback_order");
    assert ownOrder in store ==> Settable("source", "extraction.fallback_order", store[ownOrder]);
    assert allOrder in store ==> Settable("global", "extraction.fallback_order", store[allOrder]);
  }

  /**
   The origin tells exactly which level decided: a level decides when it has a say and no stronger one has.
   The strongest is the one-time choice, then the source's setting, the global one, and the plugin's advice.
   */
  lemma StrongestDecides(store: Store, source: string, recommendation: Option<string>, oneTime: Option<string>)
    requires Sane(store) && Resolve(store, source, recommendation, oneTime).Some?
    ensures var r := Resolve(store, source, recommendation, oneTime).value;
            var bySource := ("source", source, "extraction.method");
            var byGlobal := ("global", "", "extraction.method");
            && (r.origin == OneTime <==> oneTime.Some?)
            && (r.origin == SourceSetting <==> oneTime.None? && bySource in store)
            && (r.origin == GlobalSetting <==> oneTime.None? && bySource !in store && byGlobal in store)
            && (r.origin == SourceSetting ==> store[bySource] == Text(r.way))
            && (r.origin == GlobalSetting ==> store[byGlobal] == Text(r.way))
  {
    var bySource := ("source", source, "extraction.method");
    var byGlobal := ("global", "", "extraction.method");
    assert bySource in store ==> Settable("source", "extraction.method", store[bySource]);
    assert byGlobal in store ==> Settable("global", "extraction.method", store[byGlobal]);
  }

  /** A source cannot switch the global fallback order off: an empty list of its own falls through to it. */
  lemma EmptyOrderFallsThrough(store: Store, source: string, recommendation: Option<string>, oneTime: Option<string>)
    requires Resolve(store, source, recommendation, oneTime).Some?
    requires store.Keys >= {("source", source, "extraction.fallback_order")}
    requires store[("source", source, "extraction.fallback_order")] == List([])
    ensures Resolve(store, source, recommendation, oneTime).value.order
            == Resolve(store - {("source", source, "extraction.fallback_order")}, source, recommendation, oneTime)
               .value.order
  {
  }

  // ---- After a failure ---------------------------------------------------------------------------

  datatype Decision = Retry | Fallback(way: string) | Ask | GiveUp | WaitForSession | WaitForRateLimit

  function FirstUntried(order: seq<string>, attempted: seq<string>): (r: Option<string>)
    ensures r.None? <==> forall m :: m in order ==> m in attempted
    ensures r.Some? ==> r.value in order && r.value !in attempted
  {
    if order == [] then None
    else if order[0] !in attempted then Some(order[0])
    else
      var r := FirstUntried(order[1..], attempted);
      assert order == [order[0]] + order[1..];
      r
  }

  function Decided(c: Contract, attempts: nat, budget: nat, category: string): Decision {
    if category in TERMINAL then GiveUp
    else if category in WAITING then (if category == "auth_failure" then WaitForSession else WaitForRateLimit)
    else if attempts < budget then Retry
    else if category !in METHOD_SPECIFIC || c.mode == "strict" then GiveUp
    else if c.mode == "automatic" then
      var next := FirstUntried(c.order, c.attempted);
      if next.Some? then Fallback(next.value) else GiveUp
    else Ask
  }

  /** `next_method`: it walks the fallback order and takes the first method not tried yet. */
  method NextMethod(c: Contract, attempts: nat, budget: nat, category: string) returns (d: Decision)
    ensures d == Decided(c, attempts, budget, category)
  {
    if category in TERMINAL {
      return GiveUp;
    }
    if category in WAITING {
      return if category == "auth_failure" then WaitForSession else WaitForRateLimit;
    }
    if attempts < budget {
      return Retry;
    }
    if category !in METHOD_SPECIFIC || c.mode == "strict" {
      return GiveUp;
    }
    if c.mode == "automatic" {
      for i := 0 to |c.order|
        invariant FirstUntried(c.order, c.attempted) == FirstUntried(c.order[i..], c.attempted)
      {
        if c.order[i] !in c.attempted {
          return Fallback(c.order[i]);
        }
        assert c.order[i..][1..] == c.order[i + 1..];
      }
      return GiveUp;
    }
    d := Ask;
  }

  /**
   A method is changed without asking exactly when it may help and nothing else is left: the contract allows
   it, the failure is one of the method, the retries are used up and some listed method is untried.
   */
  lemma FallsBackIff(c: Contract, attempts: nat, budget: nat, category: string)
    ensures Decided(c, attempts, budget, category).Fallback?
            <==> c.mode == "automatic" && category in METHOD_SPECIFIC && attempts >= budget
                 && exists m :: m in c.order && m !in c.attempted
  {
  }

  /** A fallback keeps the promise, and its method is a listed one that was never tried. */
  lemma FallbackKeepsPromise(c: Contract, attempts: nat, budget: nat, category: string)
    requires WellMade(c) && Decided(c, attempts, budget, category).Fallback?
    ensures var m := Decided(c, attempts, budget, category).way;
            var next := WithMethod(c, m);
            && m in c.order && m !in c.attempted
            && next.Some? && WellMade(next.value) && SamePromise(c, next.value)
            && next.value.way == m && next.value.attempted == c.attempted + [m]
  {
  }
}

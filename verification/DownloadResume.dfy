/**
 Whole-file downloads that resume by byte range, over any interruptions and any changes of the file at the
 source (conditional ranges: section 13.1.5 of RFC 9110; range requests: section 14 of RFC 9110).
 */
module DownloadResume {
  import opened Common
  import opened HttpRanges

  type Bytes = seq<int>

  // ---- Asking ------------------------------------------------------------------------------------

  datatype Request = Plain | Rest(from: nat, validator: string)

  /**
   An answer: what its headers say and the chunks that arrived; `broken` when the transport failed after
   them (with status 0 when not even headers came). `range` is the `Content-Range` header and `length` the
   `Content-Length`, as they came.
   */
  datatype Reply = Reply(
    status: nat, validator: Option<string>, range: Option<string>, length: Option<string>, chunks: seq<Bytes>,
    broken: bool)

  function Joined(chunks: seq<Bytes>): Bytes {
    if chunks == [] then [] else Joined(chunks[..|chunks| - 1]) + chunks[|chunks| - 1]
  }

  // ---- Writing -----------------------------------------------------------------------------------

  function Total(reply: Reply, offset: nat): Option<int> {
    TotalLength(reply.range, reply.length, offset)
  }

  datatype Streamed =
    | Unreachable                                   // the transport failed
    | TooLarge
    | Done(status: nat, validator: Option<string>, total: Option<int>, resumed: bool)

  /** The chunks that fit are written one by one; the first that does not fit is not. */
  function Fitting(chunks: seq<Bytes>, offset: nat, max: nat): (r: nat)
    ensures r <= |chunks|
  {
    if chunks == [] then 0
    else
      var k := |chunks| - 1;
      var before := Fitting(chunks[..k], offset, max);
      if before < k || offset + |Joined(chunks)| > max then before else k + 1
  }

  function Written(file: Bytes, reply: Reply, offset: nat, max: nat): (Bytes, Streamed) {
    var n := Fitting(reply.chunks, offset, max);
    var body := file + Joined(reply.chunks[..n]);
    (body, if n < |reply.chunks| then TooLarge
           else if reply.broken then Unreachable
           else Done(reply.status, reply.validator, Total(reply, offset), offset > 0))
  }

  /** The continuation of this very version, as far as its headers tell. */
  predicate Continues(reply: Reply, from: nat, validator: string) {
    && reply.status == 206
    && RangeStart(reply.range) == Some(from)
    && (reply.validator == None || reply.validator == Some(validator))
  }

  function Answered(file: Option<Bytes>, request: Request, reply: Reply, max: nat): Option<(Option<Bytes>, Streamed)> {
    if request.Rest? && Continues(reply, request.from, request.validator) then
      var (body, done) := Written(if file.Some? then file.value else [], reply, request.from, max);
      Some((Some(body), done))
    else if request.Rest? && (reply.status == 206 || reply.status == 416) then None
    else if reply.status == 200 then
      var (body, done) := Written([], reply, 0, max);
      Some((Some(body), done))
    else
      Some((file, if reply.broken then Unreachable else Done(reply.status, reply.validator, Total(reply, 0), false)))
  }

  /**
   `stream_to`: asks for the rest when there is one to ask for; an answer that is not the continuation makes it
   ask for the whole file, once. The two replies are what the source would answer to the two requests.
   */
  function StreamTo(file: Option<Bytes>, from: nat, validator: Option<string>, first: Reply, second: Reply, max: nat)
    : (Option<Bytes>, Streamed)
  {
    if from > 0 && validator.Some? && validator.value != "" && file.Some? && |file.value| == from then
      var r := Answered(file, Rest(from, validator.value), first, max);
      if r.Some? then r.value else Answered(file, Plain, second, max).value
    else Answered(file, Plain, first, max).value
  }

  // ---- One attempt -------------------------------------------------------------------------------

  /** What the staging area and the manifest hold of a whole-file download. */
  datatype Staged = Staged(file: Option<Bytes>, validator: Option<string>, expected: Option<int>)

  const NOTHING_STAGED := Staged(None, None, None)

  datatype Attempt =
    | Interrupted                      // the transport failed, the body was too large, or the process died
    | Refused(status: nat)
    | Invalid
    | Verified(file: Bytes)

  function Resumable(s: Staged): bool {
    && s.validator.Some? && s.validator.value != ""
    && s.expected.Some? && s.expected.value > 0
    && s.file.Some? && 0 < |s.file.value| < s.expected.value
  }

  /** Where an attempt is cut short: nowhere, or after the stream and before the manifest is saved. */
  datatype Cut = NoCut | BeforeManifest | BeforeVerifying

  /** `_download_file`. */
  function Attempted(s: Staged, first: Reply, second: Reply, max: nat, valid: Bytes -> bool, cut: Cut): (Attempt, Staged) {
    var from := if Resumable(s) then |s.file.value| else 0;
    var (file, done) := StreamTo(s.file, from, if Resumable(s) then s.validator else None, first, second, max);
    if !done.Done? || cut == BeforeManifest then (Interrupted, s.(file := file))
    else if done.status != 200 && done.status != 206 then (Refused(done.status), s.(file := file))
    else if file.None? then (Interrupted, s.(file := file))
    else
      var saved := Staged(file, done.validator, done.total);
      if cut == BeforeVerifying then (Interrupted, saved)
      else if !valid(file.value) then (Invalid, NOTHING_STAGED)
      else (Verified(file.value), saved)
  }

  // ---- The source --------------------------------------------------------------------------------

  /** The versions the file goes through at the source; each has its own validator, which never comes back. */
  datatype Version = Version(body: Bytes, tag: string)

  ghost predicate DistinctTags(history: seq<Version>) {
    forall i, j :: 0 <= i < j < |history| ==> history[i].tag != history[j].tag
  }

  predicate Prefix(a: Bytes, b: Bytes) {
    |a| <= |b| && a == b[..|a|]
  }

  /**
   An answer of a source whose file is at version `v`: a full answer carries (so much of) this version; a
   partial one is given only for the rest asked for, when the validator asked with is this version's (section
   13.1.5 of RFC 9110) or it says itself, by start or validator, that it is something else. A body that is
   not broken off is whole.
   */
  ghost predicate Honest(reply: Reply, request: Request, v: Version) {
    && (reply.status == 200 ==>
          && Prefix(Joined(reply.chunks), v.body)
          && (reply.validator == None || reply.validator == Some(v.tag))
          && (!reply.broken ==> Joined(reply.chunks) == v.body))
    && (reply.status == 206 ==> request.Rest?)
    && (reply.status == 206 && Continues(reply, request.from, request.validator) ==>
          && v.tag == request.validator && request.from <= |v.body|
          && Prefix(Joined(reply.chunks), v.body[request.from..])
          && (!reply.broken ==> Joined(reply.chunks) == v.body[request.from..]))
  }

  // ---- What the staging area holds ---------------------------------------------------------------

  /** The file is the beginning of one version; the manifest's validator is of that version or an older one. */
  ghost predicate OneVersion(s: Staged, history: seq<Version>, latest: int) {
    && 0 <= latest < |history|
    && NoNewer(s.validator, history, latest)
    && (s.file.Some? ==> exists w :: OfVersion(s, history, latest, w))
  }

  ghost predicate NoNewer(validator: Option<string>, history: seq<Version>, w: int) {
    forall u :: 0 <= u < |history| && validator == Some(history[u].tag) ==> u <= w
  }

  ghost predicate OfVersion(s: Staged, history: seq<Version>, latest: int, w: int) {
    && 0 <= w <= latest < |history|
    && s.file.Some? && Prefix(s.file.value, history[w].body)
    && NoNewer(s.validator, history, w)
  }

  lemma {:induction false} FittingPrefix(chunks: seq<Bytes>, n: nat)
    requires n <= |chunks|
    ensures Prefix(Joined(chunks[..n]), Joined(chunks))
  {
    if n == |chunks| {
      assert chunks[..n] == chunks;
    } else {
      var k := |chunks| - 1;
      FittingPrefix(chunks[..k], n);
      assert chunks[..k][..n] == chunks[..n];
    }
  }

  /** What appending or starting over leaves in the file. */
  lemma WrittenVersion(file: Bytes, reply: Reply, offset: nat, max: nat, body: Bytes)
    requires offset == |file| && Prefix(file, body)
    requires Prefix(Joined(reply.chunks), body[offset..])
    requires !reply.broken ==> Joined(reply.chunks) == body[offset..]
    ensures var (file', done) := Written(file, reply, offset, max);
            && Prefix(file', body)
            && (done.Done? ==> file' == body && done.validator == reply.validator && done.status == reply.status)
  {
    var n := Fitting(reply.chunks, offset, max);
    FittingPrefix(reply.chunks, n);
    assert reply.chunks[..|reply.chunks|] == reply.chunks;
    assert body == body[..offset] + body[offset..];
  }

  /** What one answered request leaves in the file. */
  lemma AnsweredVersion(file: Option<Bytes>, request: Request, reply: Reply, max: nat, v: Version)
    requires Honest(reply, request, v)
    requires request.Rest? ==> file.Some? && |file.value| == request.from
    requires request.Rest? && v.tag == request.validator ==> Prefix(file.value, v.body)
    requires Answered(file, request, reply, max).Some?
    ensures var (file', done) := Answered(file, request, reply, max).value;
            && (file' == file || (file'.Some? && Prefix(file'.value, v.body)))
            && (done.Done? && (done.status == 200 || done.status == 206) ==>
                  && file' == Some(v.body)
                  && (done.validator == None || done.validator == Some(v.tag)))
  {
    hide Written, Joined;
    if request.Rest? && Continues(reply, request.from, request.validator) {
      WrittenVersion(file.value, reply, request.from, max, v.body);
    } else if reply.status == 200 {
      assert v.body[0..] == v.body;
      WrittenVersion([], reply, 0, max, v.body);
    }
  }

  // ---- What one request does ---------------------------------------------------------------------

  /** The whole answer is written exactly while it stays within the limit. */
  lemma {:induction false} FittingAll(chunks: seq<Bytes>, offset: nat, max: nat)
    ensures Fitting(chunks, offset, max) == |chunks| <==> chunks == [] || offset + |Joined(chunks)| <= max
  {
    if chunks != [] {
      FittingAll(chunks[..|chunks| - 1], offset, max);
    }
  }

  /** The answer carries on the very file asked for. */
  predicate Appends(request: Request, reply: Reply) {
    && request.Rest? && reply.status == 206
    && RangeStart(reply.range) == Some(request.from)
    && (reply.validator.None? || reply.validator.value == request.validator)
  }

  /**
   A request for the rest is made again, for everything, just if a partial answer is not the continuation or the range
   cannot be had. Only a full answer and the continuation write; what does not fit is too large; and what ends well
   says which answer it was, where it started, and the length its headers give.
   */
  lemma AnsweredExactly(file: Option<Bytes>, request: Request, reply: Reply, max: nat)
    requires request.Rest? ==> request.from > 0
    ensures var r := Answered(file, request, reply, max);
            var appends := Appends(request, reply);
            var offset := if appends then request.from else 0;
            var writes := appends || reply.status == 200;
            var fits := !writes || reply.chunks == [] || offset + |Joined(reply.chunks)| <= max;
            && (r.None? <==> request.Rest? && !appends && (reply.status == 206 || reply.status == 416))
            && (r.Some? ==>
                  var (file', done) := r.value;
                  && (!writes ==> file' == file)
                  && (done == TooLarge <==> !fits)
                  && (done == Unreachable <==> fits && reply.broken)
                  && (done.Done? ==>
                        && done.status == reply.status && done.validator == reply.validator
                        && done.total == TotalLength(reply.range, reply.length, offset) && done.resumed == appends))
  {
    FittingAll(reply.chunks, if Appends(request, reply) then request.from else 0, max);
    hide Fitting, Joined, TotalLength, RangeStart;
  }

  /** The rest is asked for just if some of the expected length is there and the version is known. */
  lemma AskedExactly(s: Staged)
    ensures forall from: nat, validator ::
              Asked(s) == Rest(from, validator)
              <==> && s.file.Some? && |s.file.value| == from && 0 < from && s.expected.Some? && from < s.expected.value
                   && s.validator == Some(validator) && validator != ""
  {
  }

  function Asked(s: Staged): Request {
    if Resumable(s) then Rest(|s.file.value|, s.validator.value) else Plain
  }

  /** What streaming leaves, when the source is at version `a` and then, for a second request, at `b`. */
  lemma StreamedVersion(s: Staged, history: seq<Version>, latest: int, a: int, b: int, first: Reply, second: Reply, max: nat)
    requires DistinctTags(history) && OneVersion(s, history, latest) && latest <= a <= b < |history|
    requires Honest(first, Asked(s), history[a]) && Honest(second, Plain, history[b])
    ensures var from := if Resumable(s) then |s.file.value| else 0;
            var (file, done) := StreamTo(s.file, from, if Resumable(s) then s.validator else None, first, second, max);
            exists w :: (w == a || w == b) && Left(s.file, file, done, history[w])
  {
    hide Answered, Honest;
    if Resumable(s) {
      SameVersion(s, history, latest, a);
      if Answered(s.file, Asked(s), first, max).Some? {
        AnsweredVersion(s.file, Asked(s), first, max, history[a]);
      } else {
        PlainAnswered(s.file, second, max);
        AnsweredVersion(s.file, Plain, second, max, history[b]);
      }
    } else {
      PlainAnswered(s.file, first, max);
      AnsweredVersion(s.file, Plain, first, max, history[a]);
    }
  }

  predicate Left(before: Option<Bytes>, file: Option<Bytes>, done: Streamed, v: Version) {
    && (file == before || (file.Some? && Prefix(file.value, v.body)))
    && (done.Done? && (done.status == 200 || done.status == 206) ==>
          file == Some(v.body) && (done.validator == None || done.validator == Some(v.tag)))
  }

  lemma PlainAnswered(file: Option<Bytes>, reply: Reply, max: nat)
    ensures Answered(file, Plain, reply, max).Some?
  {
  }

  /** If the validator kept is that of the version now served, the file kept is a beginning of that version. */
  lemma SameVersion(s: Staged, history: seq<Version>, latest: int, a: int)
    requires OneVersion(s, history, latest) && latest <= a < |history|
    requires s.file.Some?
    ensures s.validator == Some(history[a].tag) ==> Prefix(s.file.value, history[a].body)
  {
    var w :| OfVersion(s, history, latest, w);
  }

  /**
   One attempt keeps the rule, and what it verifies is the whole body of one version served during it.
   An attempt that is cut short may leave the file at a newer version than the manifest's validator names.
   */
  lemma AttemptKeeps(s: Staged, history: seq<Version>, latest: int, a: int, b: int,
                     first: Reply, second: Reply, max: nat, valid: Bytes -> bool, cut: Cut)
    requires DistinctTags(history) && OneVersion(s, history, latest) && latest <= a <= b < |history|
    requires Honest(first, Asked(s), history[a]) && Honest(second, Plain, history[b])
    ensures var (answer, s') := Attempted(s, first, second, max, valid, cut);
            && OneVersion(s', history, b)
            && (answer.Verified? ==>
                  valid(answer.file) && (answer.file == history[a].body || answer.file == history[b].body))
  {
    hide StreamTo, Honest, Prefix;
    StreamedVersion(s, history, latest, a, b, first, second, max);
    var from := if Resumable(s) then |s.file.value| else 0;
    var (file, done) := StreamTo(s.file, from, if Resumable(s) then s.validator else None, first, second, max);
    var w :| (w == a || w == b) && Left(s.file, file, done, history[w]);
    LeftIsOneVersion(s, history, latest, w, b, file, done);
  }

  lemma LeftIsOneVersion(
    s: Staged, history: seq<Version>, latest: int, w: int, b: int, file: Option<Bytes>, done: Streamed)
    requires DistinctTags(history) && OneVersion(s, history, latest) && latest <= w <= b < |history|
    requires Left(s.file, file, done, history[w])
    ensures OneVersion(s.(file := file), history, b)
    ensures done.Done? && (done.status == 200 || done.status == 206) ==>
              OneVersion(Staged(file, done.validator, done.total), history, b)
    ensures OneVersion(NOTHING_STAGED, history, b)
  {
    var next := s.(file := file);
    if file.Some? {
      if file == s.file {
        var x :| OfVersion(s, history, latest, x);
        assert OfVersion(next, history, b, x);
      } else {
        assert OfVersion(next, history, b, w);
      }
    }
    if done.Done? && (done.status == 200 || done.status == 206) {
      var saved := Staged(file, done.validator, done.total);
      assert history[w].body[..|history[w].body|] == history[w].body;
      forall u | 0 <= u < |history| && saved.validator == Some(history[u].tag) ensures u <= w {
      }
      assert OfVersion(saved, history, b, w);
    }
  }

  // ---- Every run ---------------------------------------------------------------------------------

  /**
   What may happen to a staged file: an attempt while the source is at two versions, its manifest forgotten by
   a manual retry, its staging area gone, or both dropped for another method.
   */
  datatype Move =
    | Try(a: int, b: int, first: Reply, second: Reply, cut: Cut)
    | ForgetManifest
    | LoseFile
    | StartAfresh

  function Moved(s: Staged, m: Move, max: nat, valid: Bytes -> bool): Staged {
    match m
    case Try(_, _, first, second, cut) => Attempted(s, first, second, max, valid, cut).1
    case ForgetManifest => s.(validator := None, expected := None)
    case LoseFile => s.(file := None)
    case StartAfresh => NOTHING_STAGED
  }

  function After(moves: seq<Move>, max: nat, valid: Bytes -> bool): Staged {
    if moves == [] then NOTHING_STAGED else Moved(After(moves[..|moves| - 1], max, valid), moves[|moves| - 1], max, valid)
  }

  /** The last version any attempt has met. */
  function LatestMet(moves: seq<Move>): int {
    if moves == [] then 0
    else if moves[|moves| - 1].Try? then moves[|moves| - 1].b else LatestMet(moves[..|moves| - 1])
  }

  /** The source moves through its versions in order and answers each request honestly. */
  ghost predicate HonestRun(moves: seq<Move>, history: seq<Version>, max: nat, valid: Bytes -> bool) {
    if moves == [] then true
    else
      var before := moves[..|moves| - 1];
      HonestRun(before, history, max, valid)
      && HonestMove(After(before, max, valid), moves[|moves| - 1], history, LatestMet(before))
  }

  ghost predicate HonestMove(s: Staged, m: Move, history: seq<Version>, latest: int) {
    m.Try? ==>
      && latest <= m.a <= m.b < |history| && 0 <= m.a
      && Honest(m.first, Asked(s), history[m.a]) && Honest(m.second, Plain, history[m.b])
  }

  /**
   Whatever is interrupted, retried or lost, and whenever the source changes the file: what is staged is the
   beginning of exactly one version, and what is verified is the whole body of one.
   */
  lemma {:induction false} NeverSpliced(moves: seq<Move>, history: seq<Version>, max: nat, valid: Bytes -> bool)
    requires DistinctTags(history) && history != [] && HonestRun(moves, history, max, valid)
    ensures OneVersion(After(moves, max, valid), history, LatestMet(moves))
    ensures moves != [] && moves[|moves| - 1].Try? ==>
              var m := moves[|moves| - 1];
              var answer := Attempted(After(moves[..|moves| - 1], max, valid), m.first, m.second, max, valid, m.cut).0;
              answer.Verified? ==> answer.file == history[m.a].body || answer.file == history[m.b].body
  {
    if moves != [] {
      hide Attempted, Honest;
      var k := |moves| - 1;
      NeverSpliced(moves[..k], history, max, valid);
      var s, m := After(moves[..k], max, valid), moves[k];
      if m.Try? {
        AttemptKeeps(s, history, LatestMet(moves[..k]), m.a, m.b, m.first, m.second, max, valid, m.cut);
      } else if s.file.Some? {
        var w :| OfVersion(s, history, LatestMet(moves[..k]), w);
        assert m == ForgetManifest ==> OfVersion(Moved(s, m, max, valid), history, LatestMet(moves[..k]), w);
      }
    }
  }

  // ---- Resuming completes ------------------------------------------------------------------------

  lemma {:induction false} AllFit(chunks: seq<Bytes>, offset: nat, max: nat)
    requires offset + |Joined(chunks)| <= max
    ensures Fitting(chunks, offset, max) == |chunks|
  {
    if chunks != [] {
      AllFit(chunks[..|chunks| - 1], offset, max);
    }
  }

  /** What a server sends for the rest of a version, from byte `from` on. */
  predicate SendsRest(reply: Reply, from: nat, v: Version) {
    && from < |v.body|
    && reply.status == 206 && reply.validator == Some(v.tag) && !reply.broken
    && reply.range == Some(ContentRange(from, |v.body| - 1, Some(|v.body|)))
    && Joined(reply.chunks) == v.body[from..]
  }

  /**
   A file that is the beginning of the version still served is completed by one answer with the rest, however it is
   cut into chunks: the header is read as it was written, the rest goes behind what is there, and the manifest has the
   whole length.
   */
  lemma RestCompletes(s: Staged, v: Version, first: Reply, second: Reply, max: nat, valid: Bytes -> bool)
    requires Resumable(s) && s.validator == Some(v.tag)
    requires Prefix(s.file.value, v.body) && |s.file.value| < |v.body| <= max
    requires SendsRest(first, |s.file.value|, v) && valid(v.body)
    ensures Attempted(s, first, second, max, valid, NoCut)
            == (Verified(v.body), Staged(Some(v.body), Some(v.tag), Some(|v.body|)))
  {
    hide RangeStart, TotalLength, ContentRange, Joined, Fitting;
    var from := |s.file.value|;
    ContentRangeRoundTrip(from, |v.body| - 1, Some(|v.body|), first.length, from);
    AllFit(first.chunks, from, max);
    assert first.chunks[..|first.chunks|] == first.chunks;
    assert v.body == v.body[..from] + v.body[from..];
  }

  // ---- Where the hypotheses matter ---------------------------------------------------------------

  const BIG := 100

  /** A whole answer, and one that breaks off after its first byte. */
  function Full(v: Version): Reply
    requires |v.body| == 2
  {
    Reply(200, Some(v.tag), None, Some(Decimal(2)), [v.body], false)
  }

  function Broken(v: Version): Reply
    requires |v.body| == 2
  {
    Reply(200, Some(v.tag), None, Some(Decimal(2)), [v.body[..1]], true)
  }

  function LastByte(v: Version): Reply
    requires |v.body| == 2
  {
    Reply(206, Some(v.tag), Some(ContentRange(1, 1, Some(2))), None, [v.body[1..]], false)
  }

  /** The file was complete and saved, the process died before verifying it, and a restart broke off. */
  function Restarted(before: Version, after: Version): seq<Move>
    requires |before.body| == 2 && |after.body| == 2
  {
    [Try(0, 0, Full(before), Full(before), BeforeVerifying), Try(1, 1, Broken(after), Broken(after), NoCut)]
  }

  lemma JoinedOne(chunk: Bytes)
    ensures Joined([chunk]) == chunk && Fitting([chunk], 0, |chunk|) == 1
  {
    assert [chunk][..0] == [];
  }

  lemma OneChunk(file: Bytes, reply: Reply, offset: nat, chunk: Bytes)
    requires reply.chunks == [chunk] && offset + |chunk| <= BIG
    ensures Written(file, reply, offset, BIG)
            == (file + chunk, if reply.broken then Unreachable
                              else Done(reply.status, reply.validator, Total(reply, offset), offset > 0))
  {
    JoinedOne(chunk);
    assert [chunk][..0] == [] && [chunk][..1] == [chunk];
    assert Fitting([chunk], offset, BIG) == 1;
  }

  /** An interrupted restart leaves the older version's validator beside the newer version's bytes. */
  lemma RestartLeavesOlderValidator(before: Version, after: Version, valid: Bytes -> bool)
    requires |before.body| == 2 && |after.body| == 2
    ensures var s := After(Restarted(before, after), BIG, valid);
            s == Staged(Some(after.body[..1]), Some(before.tag), Some(2))
  {
    var moves := Restarted(before, after);
    assert moves[..1] == [moves[0]] && moves[..1][..0] == [];
    OneChunk([], Full(before), 0, before.body);
    OneChunk([], Broken(after), 0, after.body[..1]);
    assert [] + before.body == before.body && [] + after.body[..1] == after.body[..1];
    assert After(moves[..1][..0], BIG, valid) == NOTHING_STAGED;
    assert After(moves[..1], BIG, valid) == Staged(Some(before.body), Some(before.tag), Some(2));
  }

  /** If a validator did come back after changing, the next resume would splice two versions. */
  lemma ReturningTagSplices(valid: Bytes -> bool)
    requires valid([2, 1])
    ensures var one, two := Version([1, 1], "a"), Version([2, 2], "b");
            var s := After(Restarted(one, two), BIG, valid);
            && Honest(LastByte(one), Asked(s), one)
            && Attempted(s, LastByte(one), LastByte(one), BIG, valid, NoCut).0 == Verified([2, 1])
  {
    hide RangeStart, TotalLength, ContentRange, Decimal, After, Fitting;
    ContentRangeRoundTrip(1, 1, Some(2), None, 1);
    var one, two := Version([1, 1], "a"), Version([2, 2], "b");
    RestartLeavesOlderValidator(one, two, valid);
    var s := After(Restarted(one, two), BIG, valid);
    assert Asked(s) == Rest(1, "a");
    JoinedOne([1]);
    assert one.body[1..] == [1] && two.body[..1] == [2];
    OneChunk([2], LastByte(one), 1, [1]);
    assert [2] + [1] == [2, 1];
  }

  // ---- The file on disk --------------------------------------------------------------------------

  class FileDownload {
    var file: Option<Bytes>
    var validator: Option<string>
    var expected: Option<int>

    ghost function State(): Staged
      reads this
    {
      Staged(file, validator, expected)
    }

    constructor ()
      ensures State() == NOTHING_STAGED
    {
      file, validator, expected := None, None, None;
    }

    /** Writes the chunks behind what is there, up to the first that would make the body too large. */
    method Write(start: Bytes, reply: Reply, offset: nat, max: nat) returns (done: Streamed)
      modifies this`file
      ensures var (body, d) := Written(start, reply, offset, max); file == Some(body) && done == d
    {
      file := Some(start);
      assert start + [] == start;
      var written := 0;
      for i := 0 to |reply.chunks|
        invariant Fitting(reply.chunks[..i], offset, max) == i
        invariant written == |Joined(reply.chunks[..i])|
        invariant file == Some(start + Joined(reply.chunks[..i]))
      {
        var upTo := reply.chunks[..i + 1];
        assert upTo[..i] == reply.chunks[..i];
        written := written + |reply.chunks[i]|;
        if offset + written > max {
          StopsFitting(reply.chunks, i, offset, max);
          return TooLarge;
        }
        assert start + Joined(upTo) == start + Joined(reply.chunks[..i]) + reply.chunks[i];
        file := Some(file.value + reply.chunks[i]);
      }
      assert reply.chunks[..|reply.chunks|] == reply.chunks;
      done := if reply.broken then Unreachable else Done(reply.status, reply.validator, Total(reply, offset), offset > 0);
    }

    method Stream(from: nat, tag: Option<string>, first: Reply, second: Reply, max: nat) returns (done: Streamed)
      modifies this`file
      ensures (file, done) == StreamTo(old(file), from, tag, first, second, max)
    {
      var resume := from > 0 && tag.Some? && tag.value != "" && file.Some? && |file.value| == from;
      var askingForRest := resume;
      var reply := first;
      if askingForRest {
        if Continues(reply, from, tag.value) {
          done := Write(file.value, reply, from, max);
          return;
        }
        if reply.status == 206 || reply.status == 416 {
          reply := second;
        }
      }
      if reply.status == 200 {
        done := Write([], reply, 0, max);
        return;
      }
      done := if reply.broken then Unreachable else Done(reply.status, reply.validator, Total(reply, 0), false);
    }

    method Download(first: Reply, second: Reply, max: nat, valid: Bytes -> bool, cut: Cut) returns (answer: Attempt)
      modifies this
      ensures (answer, State()) == Attempted(old(State()), first, second, max, valid, cut)
    {
      hide StreamTo;
      var size := if file.Some? then |file.value| else 0;
      var resumable := validator.Some? && validator.value != "" && expected.Some? && expected.value > 0
                       && 0 < size < expected.value;
      var done := Stream(if resumable then size else 0, if resumable then validator else None, first, second, max);
      if !done.Done? || cut == BeforeManifest {
        return Interrupted;
      }
      if done.status != 200 && done.status != 206 {
        return Refused(done.status);
      }
      if file.None? {
        return Interrupted;
      }
      validator, expected := done.validator, done.total;
      if cut == BeforeVerifying {
        return Interrupted;
      }
      if !valid(file.value) {
        file, validator, expected := None, None, None;
        return Invalid;
      }
      answer := Verified(file.value);
    }
  }

  /** Once a chunk does not fit, no later one is written. */
  lemma {:induction false} StopsFitting(chunks: seq<Bytes>, i: nat, offset: nat, max: nat)
    requires i < |chunks| && Fitting(chunks[..i], offset, max) == i
    requires offset + |Joined(chunks[..i + 1])| > max
    ensures Fitting(chunks, offset, max) == i
  {
    var k := |chunks| - 1;
    if i < k {
      assert chunks[..k][..i] == chunks[..i] && chunks[..k][..i + 1] == chunks[..i + 1];
      StopsFitting(chunks[..k], i, offset, max);
    } else {
      assert chunks[..i + 1] == chunks;
    }
  }
}

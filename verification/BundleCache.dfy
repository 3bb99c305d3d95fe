// The download of the Zakup bundle in ranges, resumed from what an earlier one left behind.
module BundleCache {
  import opened Types

  type Bytes = seq<bv8>

  // A Content-Range of "bytes first-last/..." (section 14.4 of RFC 9110).
  datatype Range = Range(first: nat, last: nat)

  // One request's end: a response, or a timeout, network or protocol error.
  datatype Answer = Response(status: int, range: Option<Range>, content: Bytes) | Broken

  // The server's answers, by the number of the request, and where the writing of a chunk breaks off,
  // by the number of the write: None means that it is written whole.
  datatype World = World(answer: (nat, Range) -> Answer, breaksOff: nat -> Option<nat>)

  const CHUNK := 0x10_0000
  const TRIES := 5

  // A partial response encloses the bytes its Content-Range says (section 15.3.7 of RFC 9110), or,
  // cut short, the first of them.
  ghost predicate Honest(world: World, whole: Bytes) {
    forall n: nat, range: Range :: HonestAnswer(world.answer(n, range), whole)
  }

  ghost predicate HonestAnswer(answer: Answer, whole: Bytes) {
    answer.Response? && answer.status == 206 && answer.range.Some?
    && answer.range.value.first <= answer.range.value.last < |whole| ==>
      answer.content <= whole[answer.range.value.first..answer.range.value.last + 1]
  }

  // ---------------------------------------------------------------- one range

  datatype Take = Good | Retry | GiveUp

  // What _get_range makes of an answer: other statuses than 2xx raise an error that is not retried.
  function Check(answer: Answer, range: Range): Take {
    if answer.Broken? then Retry
    else if !(200 <= answer.status < 300) then GiveUp
    else if answer.status != 206 || answer.range != Some(range) then Retry
    else if |answer.content| != range.last - range.first + 1 then Retry
    else Good
  }

  // Worth another try: no answer, or one that is in order but is not the range.
  ghost predicate Transient(answer: Answer, range: Range) {
    match answer
    case Broken => true
    case Response(status, of, content) =>
      200 <= status < 300 && !(status == 206 && of == Some(range) && |content| == range.last - range.first + 1)
  }

  // The first good answer of at most `tries`, and the number of requests made.
  function Ranged(world: World, n: nat, range: Range, tries: nat): (Option<Bytes>, nat)
    decreases tries
  {
    if tries == 0 then (None, n)
    else
      match Check(world.answer(n, range), range)
      case Good => (Some(world.answer(n, range).content), n + 1)
      case GiveUp => (None, n + 1)
      case Retry => Ranged(world, n + 1, range, tries - 1)
  }

  lemma {:induction false} RangedIsRight(world: World, whole: Bytes, n: nat, range: Range, tries: nat)
    requires Honest(world, whole) && range.first <= range.last < |whole|
    ensures Ranged(world, n, range, tries).1 <= n + tries
    ensures var content := Ranged(world, n, range, tries).0;
            content.Some? ==> content.value == whole[range.first..range.last + 1]
    decreases tries
  {
    if tries > 0 {
      assert HonestAnswer(world.answer(n, range), whole);
      RangedIsRight(world, whole, n + 1, range, tries - 1);
    }
  }

  // Requests are made until an answer is the range or says no for good, as many as there may be tries.
  lemma {:induction false} RangedTries(world: World, n: nat, range: Range, tries: nat)
    requires tries > 0
    ensures var (content, after) := Ranged(world, n, range, tries);
            && n < after <= n + tries
            && (forall m | n <= m < after - 1 :: Transient(world.answer(m, range), range))
            && var last := world.answer(after - 1, range);
               match content
               case Some(bytes) => last == Response(206, Some(range), bytes) && |bytes| == range.last - range.first + 1
               case None => (after == n + tries && Transient(last, range))
                            || (last.Response? && !(200 <= last.status < 300))
    decreases tries
  {
    if tries > 1 {
      RangedTries(world, n + 1, range, tries - 1);
    }
  }

  // ---------------------------------------------------------------- the files

  // The partial file and the published one.
  datatype Files = Files(partial: Option<Bytes>, published: Option<Bytes>)

  datatype Outcome = Published | Interrupted | NoPartialFile

  ghost predicate Prefix(partial: Option<Bytes>, whole: Bytes) {
    partial.Some? ==> partial.value <= whole
  }

  function Written(partial: Option<Bytes>): Bytes {
    if partial.Some? then partial.value else []
  }

  // The bytes a download starts from. What is longer than the bundle is thrown away.
  function Offset(partial: Option<Bytes>, total: nat): nat {
    if partial.None? || |partial.value| > total then 0 else |partial.value|
  }

  // What a download of the bundle `whole` may leave behind.
  ghost predicate Downloaded(before: Files, whole: Bytes, after: Files, outcome: Outcome) {
    match outcome
    case Published => after == Files(None, Some(whole))
    case Interrupted =>
      && after.published == before.published && Prefix(after.partial, whole)
      && Offset(after.partial, |whole|) >= Offset(before.partial, |whole|)
    case NoPartialFile => whole == [] && after == Files(None, before.published)
  }

  // Every range is answered well within five tries, and every write is whole.
  ghost predicate Dependable(world: World, total: nat) {
    && (forall n: nat, range: Range | range.first <= range.last < total :: Ranged(world, n, range, 5).0.Some?)
    && (forall n: nat :: world.breaksOff(n).None?)
  }

  class Cache {
    var partial: Option<Bytes>
    var published: Option<Bytes>
    // Requests and writes so far.
    var requests: nat
    var writes: nat

    function Value(): Files
      reads this
    {
      Files(partial, published)
    }

    method GetRange(world: World, range: Range) returns (content: Option<Bytes>)
      modifies this`requests
      ensures (content, requests) == Ranged(world, old(requests), range, 5)
    {
      var tries := 0;
      while tries < TRIES
        invariant tries <= TRIES
        invariant Ranged(world, requests, range, TRIES - tries) == Ranged(world, old(requests), range, TRIES)
      {
        var answer := world.answer(requests, range);
        requests, tries := requests + 1, tries + 1;
        if answer.Broken? {
          continue;
        }
        if !(200 <= answer.status < 300) {
          return None;
        }
        if answer.status != 206 || answer.range != Some(range) {
          continue;
        }
        if |answer.content| != range.last - range.first + 1 {
          continue;
        }
        return Some(answer.content);
      }
      return None;
    }

    // _append_bytes; false is a crash in the middle.
    method Append(world: World, content: Bytes) returns (ok: bool)
      modifies this`partial, this`writes
      ensures writes == old(writes) + 1
      ensures ok <==> world.breaksOff(old(writes)).None? || world.breaksOff(old(writes)).value >= |content|
      ensures ok ==> partial == Some(Written(old(partial)) + content)
      ensures !ok ==> partial == Some(Written(old(partial)) + content[..world.breaksOff(old(writes)).value])
    {
      var before := Written(partial);
      var breaksOff := world.breaksOff(writes);
      writes := writes + 1;
      ok := breaksOff.None? || breaksOff.value >= |content|;
      partial := Some(before + if ok then content else content[..breaksOff.value]);
    }

    // A round of _download: the size of the chunk it fetched and appended.
    method NextRange(world: World, total: nat, offset: nat, ghost whole: Bytes) returns (got: Option<nat>)
      requires Honest(world, whole) && offset < total == |whole|
      requires Written(partial) == whole[..offset]
      modifies this`partial, this`requests, this`writes
      ensures requests <= old(requests) + 5
      ensures Dependable(world, total) ==> got.Some?
      ensures got.Some? ==> got.value == Min(1024 * 1024, total - offset) && partial == Some(whole[..offset + got.value])
      ensures got.None? ==> partial == old(partial)
                            || (partial.Some? && partial.value <= whole && offset <= |partial.value| <= total)
    {
      var end := Min(total - 1, offset + CHUNK - 1);
      RangedIsRight(world, whole, requests, Range(offset, end), TRIES);
      var content := GetRange(world, Range(offset, end));
      if content.None? {
        return None;
      }
      NextChunk(whole, offset, end, content.value);
      var ok := Append(world, content.value);
      if !ok {
        PartlyWritten(whole, offset, end, content.value, partial.value);
        return None;
      }
      return Some(|content.value|);
    }

    // _download. `rounds` is the number of chunks it got; all of them but the last are CHUNK bytes.
    method Download(world: World, total: nat, ghost whole: Bytes) returns (outcome: Outcome, ghost rounds: nat)
      requires Honest(world, whole) && total == |whole|
      requires Offset(partial, total) > 0 ==> Prefix(partial, whole)
      modifies this
      ensures Downloaded(old(Value()), whole, Value(), outcome)
      ensures Dependable(world, total) && total > 0 ==> outcome.Published?
      ensures outcome.Published? && Offset(old(partial), total) < total ==>
                1048576 * (rounds - 1) < total - Offset(old(partial), total) <= 1048576 * rounds
      ensures requests - old(requests) <= TRIES * (rounds + 1)
    {
      rounds := 0;
      var offset := if partial.Some? then |partial.value| else 0;
      if offset > total {
        partial := None;
        offset := 0;
      }
      ghost var start := offset;
      while offset < total
        invariant offset <= total && published == old(published)
        invariant Written(partial) == whole[..offset] && (partial.None? ==> offset == 0)
        invariant start <= offset && offset == Min(total, start + CHUNK * rounds)
        invariant rounds > 0 && start < total ==> CHUNK * (rounds - 1) < total - start
        invariant requests - old(requests) <= TRIES * rounds
        decreases total - offset
      {
        var got := NextRange(world, total, offset, whole);
        if got.None? {
          return Interrupted, rounds;
        }
        offset := offset + got.value;
        rounds := rounds + 1;
      }
      if partial.None? {
        return NoPartialFile, rounds;
      }
      assert whole[..total] == whole;
      published, partial := partial, None;
      return Published, rounds;
    }
  }

  lemma NextChunk(whole: Bytes, offset: nat, end: nat, content: Bytes)
    requires offset <= end < |whole| && content == whole[offset..end + 1]
    ensures whole[..offset] + content == whole[..end + 1] && |content| == end + 1 - offset
  {
  }

  lemma PartlyWritten(whole: Bytes, offset: nat, end: nat, content: Bytes, partial: Bytes)
    requires offset <= end < |whole| && content == whole[offset..end + 1]
    requires exists n: nat :: n < |content| && partial == whole[..offset] + content[..n]
    ensures partial <= whole && offset <= |partial| <= |whole|
  {
  }

  // ---------------------------------------------------------------- any number of downloads

  // Each state comes from the one before by a download of the bundle.
  ghost predicate Downloads(whole: Bytes, states: seq<Files>) {
    forall i: nat | i + 1 < |states| :: Follows(states[i], whole, states[i + 1])
  }

  ghost predicate Follows(before: Files, whole: Bytes, after: Files) {
    exists outcome :: Downloaded(before, whole, after, outcome)
  }

  // However often downloads are interrupted, in a request or in a write: the partial file stays a
  // prefix of the bundle, nothing downloaded is lost before the bundle is published, and what is
  // published is the bundle, whole.
  lemma {:induction false} PublishedIsWhole(whole: Bytes, states: seq<Files>, i: nat)
    requires Downloads(whole, states) && i < |states| && Prefix(states[0].partial, whole)
    ensures Prefix(states[i].partial, whole)
    ensures states[i].published == states[0].published || states[i].published == Some(whole)
    ensures states[i].published == Some(whole) || Offset(states[i].partial, |whole|) >= Offset(states[0].partial, |whole|)
  {
    if i > 0 {
      PublishedIsWhole(whole, states, i - 1);
      assert states[i - 1 + 1] == states[i];
    }
  }
}

/**
 This module states what the barcode scanner's majority vote computes: which
 payloads are counted from a run of frames, the frequency tally built from them,
 the order in which the tally's keys were inserted, and the selection Python's
 `max(tally, key=tally.get)` makes over that tally.
 */
module Tally {

  /** The decoder's output for one frame: the text payloads found in it, in the
      decoder's order. It may be empty. */
  type DecodeList = seq<string>

  /** No element occurs twice. */
  ghost predicate Distinct(s: seq<string>)
  {
    forall i, j :: 0 <= i < j < |s| ==> s[i] != s[j]
  }

  /* ---------------------------------------------------------------------- */
  /* Which payloads are counted                                             */
  /* ---------------------------------------------------------------------- */

  /** The payloads the first `k` frames contribute to the vote, in frame
      order: the first payload of every frame that decoded anything. A frame
      with no payload contributes nothing, and payloads after the first are
      ignored. */
  function FirstPayloads(frames: seq<DecodeList>, k: nat): (payloads: seq<string>)
    requires k <= |frames|
    ensures |payloads| <= k
  {
    if k == 0 then []
    else FirstPayloads(frames, k - 1) + (if |frames[k - 1]| == 0 then [] else [frames[k - 1][0]])
  }

  /** Reading more frames only adds payloads at the end: the payloads of the
      first `k` frames are a prefix of those of the first `m`. */
  lemma {:induction false} FirstPayloadsGrow(frames: seq<DecodeList>, k: nat, m: nat)
    requires k <= m <= |frames|
    ensures FirstPayloads(frames, k) <= FirstPayloads(frames, m)
  {
    if k < m {
      FirstPayloadsGrow(frames, k, m - 1);
    }
  }

  /** Reading more frames never lowers the number of payloads counted. */
  lemma {:induction false} FirstPayloadsMonotone(frames: seq<DecodeList>, k: nat, m: nat)
    requires k <= m <= |frames|
    ensures |FirstPayloads(frames, k)| <= |FirstPayloads(frames, m)|
  {
    FirstPayloadsGrow(frames, k, m);
  }

  /** Only the first payload of a frame matters: replacing a frame's payloads
      by its first payload alone changes nothing that is counted. */
  lemma {:induction false} OnlyFirstPayloadCounts(frames: seq<DecodeList>, i: nat, k: nat)
    requires i < |frames| && |frames[i]| > 0 && k <= |frames|
    ensures FirstPayloads(frames[i := [frames[i][0]]], k) == FirstPayloads(frames, k)
  {
    if k > 0 {
      OnlyFirstPayloadCounts(frames, i, k - 1);
    }
  }

  /** A frame that decoded nothing can be dropped without changing what is
      counted. */
  lemma {:induction false} EmptyFramesIgnored(frames: seq<DecodeList>, i: nat, k: nat)
    requires i < k <= |frames| && |frames[i]| == 0
    ensures FirstPayloads(frames[..i] + frames[i + 1..], k - 1) == FirstPayloads(frames, k)
  {
    var dropped := frames[..i] + frames[i + 1..];
    if k - 1 == i {
      PrefixUnchanged(frames, dropped, i);
    } else {
      EmptyFramesIgnored(frames, i, k - 1);
      assert dropped[k - 2] == frames[k - 1];
    }
  }

  /** Two frame sequences that agree on their first `k` frames count the same
      payloads from them. */
  lemma {:induction false} PrefixUnchanged(a: seq<DecodeList>, b: seq<DecodeList>, k: nat)
    requires k <= |a| && k <= |b|
    requires forall j :: 0 <= j < k ==> a[j] == b[j]
    ensures FirstPayloads(a, k) == FirstPayloads(b, k)
  {
    if k > 0 {
      PrefixUnchanged(a, b, k - 1);
    }
  }

  /* ---------------------------------------------------------------------- */
  /* The frequency tally                                                    */
  /* ---------------------------------------------------------------------- */

  /** How many of the counted payloads are `x`. */
  function Count(payloads: seq<string>, x: string): (n: nat)
  {
    multiset(payloads)[x]
  }

  /** The tally after counting `payloads`: every payload that was read, mapped to
      the number of times it was read. */
  function Frequencies(payloads: seq<string>): (freq: map<string, nat>)
    ensures forall x :: x in freq <==> x in payloads
    ensures forall x :: x in freq ==> freq[x] >= 1
  {
    map x | x in payloads :: Count(payloads, x)
  }

  /** Counting one more read changes one entry of the tally: a payload not yet
      in it starts at 1, a payload already in it goes up by 1, and every other
      entry keeps its count. */
  lemma FrequenciesSnoc(payloads: seq<string>, x: string)
    ensures var before := Frequencies(payloads);
      Frequencies(payloads + [x]) == before[x := if x in before then before[x] + 1 else 1]
  {
    var before, after := Frequencies(payloads), Frequencies(payloads + [x]);
    assert multiset(payloads + [x]) == multiset(payloads) + multiset{x};
    var expected := before[x := if x in before then before[x] + 1 else 1];
    assert after.Keys == expected.Keys;
    forall y | y in after
      ensures after[y] == expected[y]
    {
      if y != x {
        assert y in payloads;
      }
    }
  }

  /** The tally's keys in the order they were first inserted, which is the
      order in which a Python dict iterates them. */
  function InsertionOrder(payloads: seq<string>): (order: seq<string>)
    ensures forall x :: x in order <==> x in payloads
    ensures Distinct(order)
  {
    if payloads == [] then []
    else
      var before := payloads[..|payloads| - 1];
      var x := payloads[|payloads| - 1];
      assert payloads == before + [x];
      var order := InsertionOrder(before);
      if x in order then order else order + [x]
  }

  /** A read inserts its payload at the end of the insertion order when the
      payload is new, and leaves the order alone otherwise. */
  lemma InsertionOrderSnoc(before: seq<string>, x: string)
    ensures var order := InsertionOrder(before);
      InsertionOrder(before + [x]) == if x in order then order else order + [x]
  {
    assert (before + [x])[..|before|] == before;
  }

  /** The dict `barcode_frequency` as the scanner keeps it: the count of each
      payload, and the order in which the payloads became keys. */
  datatype Tally = Tally(frequency: map<string, nat>, order: seq<string>)

  /** Counting one payload the way the scanner does: a payload already in the
      dict goes up by one, a new one enters with count one at the end of the
      key order. */
  function Record(t: Tally, x: string): (t': Tally)
  {
    if x in t.frequency then Tally(t.frequency[x := t.frequency[x] + 1], t.order)
    else Tally(t.frequency[x := 1], t.order + [x])
  }

  /** The dict after counting `payloads` one at a time, starting empty. */
  function TallyOf(payloads: seq<string>): (t: Tally)
  {
    if payloads == [] then Tally(map[], [])
    else Record(TallyOf(payloads[..|payloads| - 1]), payloads[|payloads| - 1])
  }

  /** The dict the scanner builds maps every payload read to the number of
      times it was read, and holds its keys in the order of their first read.
      */
  lemma {:induction false} TallyOfCounts(payloads: seq<string>)
    ensures TallyOf(payloads) == Tally(Frequencies(payloads), InsertionOrder(payloads))
  {
    if payloads != [] {
      var n := |payloads| - 1;
      var before, x := payloads[..n], payloads[n];
      assert payloads == before + [x];
      TallyOfCounts(before);
      RecordCounts(before, x);
    }
  }

  /** One step of `TallyOfCounts`: recording a read in the tally of the reads
      before it gives the tally of all of them. */
  lemma RecordCounts(before: seq<string>, x: string)
    ensures Record(Tally(Frequencies(before), InsertionOrder(before)), x)
         == Tally(Frequencies(before + [x]), InsertionOrder(before + [x]))
  {
    var freq, order := Frequencies(before), InsertionOrder(before);
    assert x in freq <==> x in order;
    FrequenciesSnoc(before, x);
    InsertionOrderSnoc(before, x);
  }

  /** If key `a` comes before key `b` in insertion order, then `a` was read
      before every read of `b`. */
  lemma {:induction false} InsertedEarlierReadEarlier(payloads: seq<string>, a: string, j: nat, i: nat)
    requires j < |InsertionOrder(payloads)| && a in InsertionOrder(payloads)[..j]
    requires i < |payloads| && payloads[i] == InsertionOrder(payloads)[j]
    ensures a in payloads[..i]
  {
    var n := |payloads| - 1;
    var before, x := payloads[..n], payloads[n];
    assert payloads == before + [x];
    var order := InsertionOrder(before);
    assert a in InsertionOrder(payloads)[..j];
    if j == |order| {
      // `b` is `x`, inserted by the last read and never read before it
      assert x !in before;
      assert InsertionOrder(payloads)[..j] == order;
      if i < n {
        assert false;
      }
      assert payloads[..i] == before;
    } else {
      assert InsertionOrder(payloads)[..j] == order[..j];
      if i < n {
        assert before[i] == payloads[i];
        InsertedEarlierReadEarlier(before, a, j, i);
        assert before[..i] == payloads[..i];
      } else {
        assert a in order;
        assert payloads[..i] == before;
      }
    }
  }

  /* ---------------------------------------------------------------------- */
  /* Sum of the tally                                                       */
  /* ---------------------------------------------------------------------- */

  /** The sum of the counts `freq` gives the keys `keys`. */
  function Total(keys: seq<string>, freq: map<string, nat>): (sum: nat)
    requires forall k :: k in keys ==> k in freq
  {
    if keys == [] then 0
    else Total(keys[..|keys| - 1], freq) + freq[keys[|keys| - 1]]
  }

  /** Changing the count of a key outside `keys` does not change their sum. */
  lemma {:induction false} TotalOtherKey(keys: seq<string>, freq: map<string, nat>, x: string, v: nat)
    requires forall k :: k in keys ==> k in freq
    requires x !in keys
    ensures Total(keys, freq[x := v]) == Total(keys, freq)
  {
    if keys != [] {
      TotalOtherKey(keys[..|keys| - 1], freq, x, v);
    }
  }

  /** Raising the count of one of `keys` by one raises their sum by one. */
  lemma {:induction false} TotalBump(keys: seq<string>, freq: map<string, nat>, x: string)
    requires forall k :: k in keys ==> k in freq
    requires Distinct(keys) && x in keys
    ensures Total(keys, freq[x := freq[x] + 1]) == Total(keys, freq) + 1
  {
    var n := |keys| - 1;
    var prefix := keys[..n];
    if keys[n] == x {
      assert x !in prefix;
      TotalOtherKey(prefix, freq, x, freq[x] + 1);
    } else {
      assert x in prefix;
      TotalBump(prefix, freq, x);
    }
  }

  /** Recording one read in a tally whose key order lists each of its keys
      once, as `Record` does, raises the sum of the tally by one. */
  lemma TotalRecord(order: seq<string>, freq: map<string, nat>, x: string)
    requires forall k :: k in order <==> k in freq
    requires Distinct(order)
    ensures var order', freq' := if x in order then order else order + [x],
                                 freq[x := if x in freq then freq[x] + 1 else 1];
      Total(order', freq') == Total(order, freq) + 1
  {
    if x in order {
      TotalBump(order, freq, x);
    } else {
      TotalOtherKey(order, freq, x, 1);
      assert (order + [x])[..|order|] == order;
    }
  }

  /** Counting one more read raises the sum of the tally by one. */
  lemma TallyTotalSnoc(before: seq<string>, x: string)
    ensures Total(InsertionOrder(before + [x]), Frequencies(before + [x]))
         == Total(InsertionOrder(before), Frequencies(before)) + 1
  {
    InsertionOrderSnoc(before, x);
    FrequenciesSnoc(before, x);
    TotalRecord(InsertionOrder(before), Frequencies(before), x);
  }

  /** The counts in the tally add up to the number of payloads counted. */
  lemma {:induction false} TallyTotal(payloads: seq<string>)
    ensures Total(InsertionOrder(payloads), Frequencies(payloads)) == |payloads|
  {
    if payloads != [] {
      var n := |payloads| - 1;
      assert payloads == payloads[..n] + [payloads[n]];
      TallyTotal(payloads[..n]);
      TallyTotalSnoc(payloads[..n], payloads[n]);
    }
  }

  /* ---------------------------------------------------------------------- */
  /* Python's max(tally, key=tally.get)                                     */
  /* ---------------------------------------------------------------------- */

  /** Python's `max` scanning `keys` from index `i` on, holding the index `best`
      of the leading key so far; a later key replaces it only when its count is
      strictly greater. */
  function MaxIndexFrom(keys: seq<string>, freq: map<string, nat>, i: nat, best: nat): (r: nat)
    requires forall k :: k in keys ==> k in freq
    requires best < i <= |keys|
    requires forall j :: 0 <= j < i ==> freq[keys[j]] <= freq[keys[best]]
    requires forall j :: 0 <= j < best ==> freq[keys[j]] < freq[keys[best]]
    ensures best <= r < |keys|
    ensures forall j :: 0 <= j < |keys| ==> freq[keys[j]] <= freq[keys[r]]
    ensures forall j :: 0 <= j < r ==> freq[keys[j]] < freq[keys[r]]
    decreases |keys| - i
  {
    if i == |keys| then best
    else if freq[keys[i]] > freq[keys[best]] then MaxIndexFrom(keys, freq, i + 1, i)
    else MaxIndexFrom(keys, freq, i + 1, best)
  }

  /** `max(freq, key=freq.get)` over a dict whose keys iterate as `keys`: a key
      of greatest count, and among the keys of that count the one that comes
      first. */
  function MostCommon(keys: seq<string>, freq: map<string, nat>): (r: string)
    requires keys != [] && Distinct(keys) && forall k :: k in keys ==> k in freq
    ensures r in keys
    ensures forall k :: k in keys ==> freq[k] <= freq[r]
    ensures forall j :: 0 <= j < |keys| && keys[j] == r ==> forall i :: 0 <= i < j ==> freq[keys[i]] < freq[r]
  {
    var best := MaxIndexFrom(keys, freq, 1, 0);
    keys[best]
  }

  /** The dict the scanner builds is one `max` can select from: its key order
      lists each of its keys once, and it is empty only before any read. */
  lemma TallyOfKeys(payloads: seq<string>)
    ensures var t := TallyOf(payloads);
      && Distinct(t.order)
      && (forall k :: k in t.order <==> k in t.frequency)
      && (t.order == [] <==> payloads == [])
  {
    TallyOfCounts(payloads);
  }

  /** A key that ties with the one `max` selects comes after it in the key
      order. */
  lemma MostCommonTie(keys: seq<string>, freq: map<string, nat>, j: nat)
    requires keys != [] && Distinct(keys) && forall k :: k in keys ==> k in freq
    requires j < |keys| && keys[j] != MostCommon(keys, freq)
    requires freq[keys[j]] == freq[MostCommon(keys, freq)]
    ensures MostCommon(keys, freq) in keys[..j]
  {
    var r := MostCommon(keys, freq);
    var p :| 0 <= p < |keys| && keys[p] == r;
    assert keys[..j][p] == r;
  }

  /** The barcode the scanner reports after counting `payloads`: `max` over the
      dict built from them. */
  function Consensus(payloads: seq<string>): (r: string)
    requires payloads != []
    ensures r in payloads
  {
    TallyOfCounts(payloads);
    var t := TallyOf(payloads);
    MostCommon(t.order, t.frequency)
  }

  /** The reported barcode was read at least as often as any other payload. */
  lemma ConsensusIsMostFrequent(payloads: seq<string>, x: string)
    requires payloads != [] && x in payloads
    ensures Count(payloads, x) > 0
    ensures Count(payloads, x) <= Count(payloads, Consensus(payloads))
  {
    TallyOfCounts(payloads);
    assert x in InsertionOrder(payloads);
  }

  /** A payload read strictly more often than every other payload is the one
      reported. */
  lemma StrictMajorityWins(payloads: seq<string>, p: string)
    requires p in payloads
    requires forall x :: x in payloads && x != p ==> Count(payloads, x) < Count(payloads, p)
    ensures Consensus(payloads) == p
  {
    ConsensusIsMostFrequent(payloads, p);
  }

  /** Ties go to the payload read first: every payload read as often as the
      reported one, but different from it, is preceded in the payloads by the
      reported one. */
  lemma ConsensusTieBreak(payloads: seq<string>, i: nat)
    requires i < |payloads|
    requires payloads[i] != Consensus(payloads)
    requires Count(payloads, payloads[i]) == Count(payloads, Consensus(payloads))
    ensures Consensus(payloads) in payloads[..i]
  {
    TallyOfCounts(payloads);
    var order, freq := InsertionOrder(payloads), Frequencies(payloads);
    var r := Consensus(payloads);
    assert payloads[i] in order;
    var j :| 0 <= j < |order| && order[j] == payloads[i];
    MostCommonTie(order, freq, j);
    InsertedEarlierReadEarlier(payloads, r, j, i);
  }

  /** The payloads "B", "A", "A", "B" report "B": the two payloads tie, and "B" was
      inserted first, although "A" reached the count of two first. */
  lemma InsertionOrderBreaksTies()
    ensures Count(["B", "A", "A"], "A") == 2 && Count(["B", "A", "A"], "B") == 1
    ensures Consensus(["B", "A", "A", "B"]) == "B"
  {
    var payloads := ["B", "A", "A", "B"];
    assert payloads[..3] == ["B", "A", "A"];
    assert multiset(payloads) == multiset{"A", "A", "B", "B"};
    assert Count(payloads, "A") == Count(payloads, "B") == 2;
    assert payloads[..0] == [];
    if Consensus(payloads) != "B" {
      ConsensusTieBreak(payloads, 0);
    }
  }
}

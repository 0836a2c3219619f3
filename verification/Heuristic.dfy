/** The fallback decoder (evm-lib/parser/codecs/heuristic.go): it guesses (address, amount) pairs. */
module Heuristic {
  import opened Wrappers
  import opened Bytes
  import opened Types
  import opened Abi
  import opened Encoding

  const MAX_TRANSFERS: int := 64

  datatype Pair = Pair(to: Address, value: nat)

  /** An address word, read as a number: 2^128 <= w < 2^160. */
  predicate PlausibleAddress(w: nat) {
    Pow256(16) <= w < Pow256(20)
  }

  /** The largest amount accepted is 2^240 itself. */
  predicate PlausibleValue(v: nat) {
    0 < v <= Pow256(30)
  }

  /** The number of adjacent word pairs in the parameters. */
  function Windows(params: Bytes): nat {
    if |params| < 64 then 0 else |params| / 32 - 1
  }

  /** The plausible pair made of words k and k + 1. */
  function PairAt(params: Bytes, k: nat): Option<Pair>
    requires k < Windows(params)
  {
    var i := 32 * k;
    var w, v := Number(params, i, i + 32), Number(params, i + 32, i + 64);
    if PlausibleAddress(w) && PlausibleValue(v) then Some(Pair(params[i + 12..i + 32], v)) else None
  }

  /** The plausible pairs among the first n windows, in order. */
  function Candidates(params: Bytes, n: nat): seq<Pair>
    requires n <= Windows(params)
  {
    if n == 0 then []
    else
      var before := Candidates(params, n - 1);
      match PairAt(params, n - 1) case None => before case Some(p) => before + [p]
  }

  /** Every element once, at its first occurrence. */
  function Dedup<T(==)>(xs: seq<T>): seq<T> {
    if |xs| == 0 then []
    else
      var before, x := xs[..|xs| - 1], xs[|xs| - 1];
      if x in before then Dedup(before) else Dedup(before) + [x]
  }

  function First64<T>(xs: seq<T>): seq<T> {
    if |xs| <= MAX_TRANSFERS then xs else xs[..MAX_TRANSFERS]
  }

  function Guess(params: Bytes): seq<Pair> {
    First64(Dedup(Candidates(params, Windows(params))))
  }

  function AsTransfers(ps: seq<Pair>): (ts: seq<Transfer>)
    ensures |ts| == |ps|
  {
    if |ps| == 0 then []
    else
      var p := ps[|ps| - 1];
      AsTransfers(ps[..|ps| - 1]) + [Move(p.to, p.value, Possible)]
  }

  function Elements(ps: seq<Pair>): set<Pair> {
    set p | p in ps
  }

  function DecodeSpec(params: Bytes): seq<Transfer> {
    AsTransfers(Guess(params))
  }

  // ----- what Dedup means -----

  function FirstIndex<T(==)>(xs: seq<T>, x: T): (i: nat)
    requires x in xs
    ensures i < |xs| && xs[i] == x && x !in xs[..i]
  {
    if xs[0] == x then 0
    else
      var i := FirstIndex(xs[1..], x);
      assert xs[..i + 1] == [xs[0]] + xs[1..][..i];
      i + 1
  }

  /** Dedup keeps exactly the elements, ordered by first occurrence, hence without repetition. */
  lemma {:induction false} DedupMeans<T>(xs: seq<T>)
    ensures forall x :: x in Dedup(xs) <==> x in xs
    ensures forall i, j :: 0 <= i < j < |Dedup(xs)| ==>
              FirstIndex(xs, Dedup(xs)[i]) < FirstIndex(xs, Dedup(xs)[j])
  {
    if |xs| > 0 {
      var before, x := xs[..|xs| - 1], xs[|xs| - 1];
      DedupMeans(before);
      assert xs == before + [x];
      forall y | y in before
        ensures FirstIndex(xs, y) == FirstIndex(before, y)
      {
        var j := FirstIndex(before, y);
        assert xs[..j] == before[..j];
        FirstIndexIs(xs, y, j);
      }
      if x !in before {
        assert xs[..|before|] == before;
        FirstIndexIs(xs, x, |before|);
      }
    }
  }

  lemma {:induction false} FirstIndexIs<T>(xs: seq<T>, x: T, i: nat)
    requires i < |xs| && xs[i] == x && x !in xs[..i]
    ensures FirstIndex(xs, x) == i
  {
    if i > 0 {
      assert xs[..i][0] == xs[0];
      forall y | y in xs[1..][..i - 1]
        ensures y in xs[..i]
      {
        var k :| 0 <= k < i - 1 && xs[1..][..i - 1][k] == y;
        assert xs[..i][k + 1] == y;
      }
      FirstIndexIs(xs[1..], x, i - 1);
    }
  }

  /** What one more window adds. */
  lemma Seen(params: Bytes, k: nat)
    requires k < Windows(params)
    ensures var before, after := Candidates(params, k), Candidates(params, k + 1);
            match PairAt(params, k)
            case None => after == before
            case Some(p) =>
              && Elements(after) == Elements(before) + {p}
              && (p in Elements(before) ==> Dedup(after) == Dedup(before))
              && (p !in Elements(before) ==>
                    && Dedup(after) == Dedup(before) + [p]
                    && AsTransfers(Dedup(after)) == AsTransfers(Dedup(before)) + [Move(p.to, p.value, Possible)])
  {
    hide PairAt;
    var before, after := Candidates(params, k), Candidates(params, k + 1);
    if PairAt(params, k).Some? {
      var p := PairAt(params, k).value;
      assert after[..|after| - 1] == before;
      assert (Dedup(before) + [p])[..|Dedup(before)|] == Dedup(before);
    }
  }

  lemma {:induction false} DedupGrows(params: Bytes, m: nat, n: nat)
    requires m <= n <= Windows(params)
    ensures Dedup(Candidates(params, m)) <= Dedup(Candidates(params, n))
  {
    hide Dedup, Candidates, PairAt, Elements, AsTransfers;
    if m < n {
      DedupGrows(params, m, n - 1);
      Seen(params, n - 1);
    }
  }

  lemma WindowFits(params: Bytes, k: nat)
    ensures k < Windows(params) <==> 32 * k + 64 <= |params|
  {
  }

  // ----- what is reported, word by word -----

  function Words(ws: seq<nat>): (bs: seq<Bytes>)
    ensures |bs| == |ws| && forall i :: 0 <= i < |bs| ==> |bs[i]| == 32
  {
    seq(|ws|, i requires 0 <= i < |ws| => Word(ws[i]))
  }

  /** An address of at least 2^128, and an amount between 1 and 2^240. */
  predicate Plausible(w: nat, v: nat) {
    0x1_0000_0000_0000_0000_0000_0000_0000_0000 <= w < 0x1_0000_0000_0000_0000_0000_0000_0000_0000_0000_0000
    && 0 < v <= 0x1_0000_0000_0000_0000_0000_0000_0000_0000_0000_0000_0000_0000_0000_0000_0000
  }

  /** The plausible adjacent pairs among the first n, each with the low 20 bytes of its first word. */
  function Pairs(ws: seq<nat>, n: nat): seq<Pair>
    requires n == 0 || n < |ws|
  {
    if n == 0 then []
    else
      Pairs(ws, n - 1)
      + if Plausible(ws[n - 1], ws[n]) then [Pair(ToBytes(ws[n - 1], 20), ws[n])] else []
  }

  /** The first 64 guesses, as the caller sees them. */
  function Reported(ps: seq<Pair>): seq<Transfer> {
    seq(if |ps| < 64 then |ps| else 64, i requires 0 <= i < |ps| =>
      Transfer(ZERO_ADDRESS, ps[i].to, Some(ps[i].value), Possible))
  }

  lemma PlausibleIs(w: nat, v: nat)
    ensures Plausible(w, v) <==> PlausibleAddress(w) && PlausibleValue(v)
  {
    assert Pow256(8) == 0x1_0000_0000_0000_0000;
    assert Pow256(12) == 0x1_0000_0000_0000_0000_0000_0000;
    assert Pow256(16) == 0x1_0000_0000_0000_0000_0000_0000_0000_0000;
    assert Pow256(20) == 0x1_0000_0000_0000_0000_0000_0000_0000_0000_0000_0000;
    assert Pow256(30) == 0x1_0000_0000_0000_0000_0000_0000_0000_0000_0000_0000_0000_0000_0000_0000_0000;
  }

  lemma {:induction false} LastDigits(v: nat, n: nat, m: nat)
    requires m <= n
    ensures ToBytes(v, n)[n - m..] == ToBytes(v, m)
  {
    if m > 0 {
      LastDigits(v / 256, n - 1, m - 1);
      assert ToBytes(v, n)[n - m..] == ToBytes(v / 256, n - 1)[n - m..] + [v % 256];
    }
  }

  lemma WordReads(params: Bytes, ws: seq<nat>, k: nat)
    requires At(params, 0, Concat(Words(ws))) && k < |ws| && IsWord(ws[k])
    ensures 32 * k + 32 <= |params| && Number(params, 32 * k, 32 * k + 32) == ws[k]
    ensures params[32 * k + 12..32 * k + 32] == ToBytes(ws[k], 20)
  {
    hide Number, ToBytes, Pow256;
    NthWord(params, 0, Words(ws), k);
    assert At(params, 32 * k, Word(ws[k]));
    ReadBack(ws[k], 32);
    NumberAt(params, 32 * k, Word(ws[k]), 32);
    LastDigits(ws[k], 32, 20);
    assert params[32 * k..32 * k + 32][12..] == params[32 * k + 12..32 * k + 32];
  }

  lemma PairReads(params: Bytes, ws: seq<nat>, k: nat)
    requires At(params, 0, Concat(Words(ws))) && k + 1 < |ws| && k < Windows(params)
    requires forall i :: 0 <= i < |ws| ==> IsWord(ws[i])
    ensures PairAt(params, k) ==
            if Plausible(ws[k], ws[k + 1]) then Some(Pair(ToBytes(ws[k], 20), ws[k + 1])) else None
  {
    hide Number, ToBytes, PlausibleAddress, PlausibleValue, Plausible, IsWord, At;
    WordReads(params, ws, k);
    WordReads(params, ws, k + 1);
    PlausibleIs(ws[k], ws[k + 1]);
  }

  lemma {:induction false} CandidatesArePairs(params: Bytes, ws: seq<nat>, n: nat)
    requires At(params, 0, Concat(Words(ws))) && (n == 0 || n < |ws|) && n <= Windows(params)
    requires forall i :: 0 <= i < |ws| ==> IsWord(ws[i])
    ensures Candidates(params, n) == Pairs(ws, n)
  {
    hide PairAt, Plausible, IsWord, At, ToBytes, Windows;
    if n > 0 {
      CandidatesArePairs(params, ws, n - 1);
      PairReads(params, ws, n - 1);
    }
  }

  lemma {:induction false} AsTransfersAt(ps: seq<Pair>, i: nat)
    requires i < |ps|
    ensures AsTransfers(ps)[i] == Transfer(ZERO_ADDRESS, ps[i].to, Some(ps[i].value), Possible)
  {
    if i < |ps| - 1 {
      AsTransfersAt(ps[..|ps| - 1], i);
    }
  }

  lemma FirstReported(ps: seq<Pair>)
    ensures AsTransfers(First64(ps)) == Reported(ps)
  {
    var first := First64(ps);
    forall i | 0 <= i < |first|
      ensures AsTransfers(first)[i] == Reported(ps)[i]
    {
      AsTransfersAt(first, i);
    }
  }

  lemma WindowCount(params: Bytes, ws: seq<nat>, tail: Bytes)
    requires params == Concat(Words(ws)) + tail && |tail| < 32
    ensures Windows(params) == if |ws| == 0 then 0 else |ws| - 1
  {
    ConcatUniform(Words(ws), 32);
  }

  /** The scan, for any parameters: as 32-byte words ws and up to 31 bytes more, they give the first 64 distinct
      pairs of a word between 2^128 and 2^160, as an address, and a next word between 1 and 2^240, as the amount. */
  lemma ScanReports(params: Bytes, ws: seq<nat>, tail: Bytes)
    requires params == Concat(Words(ws)) + tail && |tail| < 32 && forall i :: 0 <= i < |ws| ==> IsWord(ws[i])
    ensures DecodeSpec(params) == Reported(Dedup(Pairs(ws, if |ws| == 0 then 0 else |ws| - 1)))
  {
    hide Words, Concat, Candidates, Dedup, Pairs, Windows, IsWord, AsTransfers, First64, Reported;
    var n := if |ws| == 0 then 0 else |ws| - 1;
    WindowCount(params, ws, tail);
    AtWhole(Concat(Words(ws)));
    AtExtended(Concat(Words(ws)), 0, Concat(Words(ws)), tail);
    CandidatesArePairs(params, ws, n);
    FirstReported(Dedup(Candidates(params, n)));
  }

  /** Any parameters are words and up to 31 bytes more, so ScanReports speaks about all of them. */
  lemma {:induction false} SplitIntoWords(params: Bytes) returns (ws: seq<nat>, tail: Bytes)
    ensures params == Concat(Words(ws)) + tail && |tail| < 32 && forall i :: 0 <= i < |ws| ==> IsWord(ws[i])
    decreases |params|
  {
    hide ToBytes, Pow256, Number;
    if |params| < 32 {
      ws, tail := [], params;
    } else {
      var n := |params| / 32 * 32;
      var init, last := params[..n - 32], params[n - 32..n];
      var rest;
      ws, rest := SplitIntoWords(init);
      tail := params[n..];
      assert rest == [] by { WordCount(init, ws, rest); }
      WriteBack(last);
      ws := ws + [BigEndian(last)];
      assert Words(ws)[..|ws| - 1] == Words(ws[..|ws| - 1]);
      assert params == init + last + tail;
    }
  }

  lemma WordCount(params: Bytes, ws: seq<nat>, tail: Bytes)
    requires params == Concat(Words(ws)) + tail && |tail| < 32
    ensures |params| == 32 * |ws| + |tail| && |tail| == |params| % 32
  {
    ConcatUniform(Words(ws), 32);
  }

  // ----- the byte tests -----

  lemma TimesAtLeast(x: nat, p: nat)
    requires x > 0
    ensures x * p >= p
  {
  }

  /** The byte tests on a word are the range 2^128 <= w < 2^160 of its numeric value. */
  lemma ByteTest(word: Bytes)
    requires |word| == 32
    ensures (forall k :: 0 <= k < 12 ==> word[k] == 0)
            && !(word[12] == 0 && word[13] == 0 && word[14] == 0 && word[15] == 0)
            <==> PlausibleAddress(BigEndian(word))
  {
    hide Number, Pow256;
    var high, middle := Number(word, 0, 12), Number(word, 12, 16);
    NumberSplit(word, 0, 12, 32);
    NumberSplit(word, 12, 16, 32);
    NumberZero(word, 0, 12);
    NumberZero(word, 12, 16);
    assert (forall k :: 12 <= k < 16 ==> word[k] == 0)
      <==> word[12] == 0 && word[13] == 0 && word[14] == 0 && word[15] == 0;
    if high > 0 {
      TimesAtLeast(high, Pow256(20));
    }
    if middle > 0 {
      TimesAtLeast(middle, Pow256(16));
    }
  }

  method PlausibleAddressWord(word: Bytes) returns (r: Option<Address>)
    ensures r == if |word| == 32 && PlausibleAddress(BigEndian(word)) then Some(word[12..]) else None
  {
    hide PlausibleAddress, BigEndian;
    if |word| != 32 {
      return None;
    }
    ByteTest(word);
    for k := 0 to 12
      invariant forall j :: 0 <= j < k ==> word[j] == 0
    {
      if word[k] != 0 {
        return None;
      }
    }
    if word[12] == 0 && word[13] == 0 && word[14] == 0 && word[15] == 0 {
      return None;
    }
    r := Some(word[12..]);
  }

  /** The plausibility tests of one window, at byte i. */
  method ReadPair(params: Bytes, i: Int64, ghost k: nat) returns (r: Option<Pair>)
    requires |params| <= MAX_CALLDATA && k < Windows(params) && i as int == 32 * k
    ensures r == PairAt(params, k)
  {
    hide Number, PlausibleAddress;
    var word, next := params[i..i + 32], params[i + 32..i + 64];
    NumberAt(params, i as int, word, 32);
    NumberAt(params, i as int + 32, next, 32);
    var addr := PlausibleAddressWord(word);
    if addr.None? {
      return None;
    }
    assert word[12..] == params[i + 12..i + 32];
    var val := BigEndian(next);
    if val <= 0 || val < 0 || val > Pow256(30) {
      return None;
    }
    r := Some(Pair(addr.value, val));
  }

  method Decode(sel: Selector, params: Bytes) returns (out: ParsedInputData)
    requires |params| <= MAX_CALLDATA
    ensures fresh(out) && out.View() == Parsed(sel, DecodeSpec(params))
  {
    hide DecodeSpec, Windows, Dedup, Candidates, PairAt, Elements, AsTransfers;
    out := new ParsedInputData(sel);
    GuessShort(params);
    if |params| as Int64 < 64 {
      return;
    }
    var seen: set<Pair> := {};
    var i: Int64 := 0;
    ghost var k := 0;
    WindowFits(params, 0);
    while i + 64 <= |params| as Int64
      invariant i as int == 32 * k <= |params| && k <= Windows(params)
      invariant k < Windows(params) <==> 32 * k + 64 <= |params|
      invariant fresh(out) && out.selector == sel
      invariant seen == Elements(Candidates(params, k))
      invariant out.transfers == AsTransfers(Dedup(Candidates(params, k)))
      invariant |out.transfers| < 64
      decreases |params| - i as int
    {
      Seen(params, k);
      WindowFits(params, k + 1);
      var key := ReadPair(params, i, k);
      k := k + 1;
      i := i + 32;
      if key.Some? && key.value !in seen {
        seen := seen + {key.value};
        out.transfers := out.transfers + [Move(key.value.to, key.value.value, Possible)];
        if |out.transfers| >= 64 {
          break;
        }
      }
    }
    GuessEnds(params, k);
  }

  lemma GuessShort(params: Bytes)
    ensures |params| < 64 ==> DecodeSpec(params) == []
    ensures Elements(Candidates(params, 0)) == {} && AsTransfers(Dedup(Candidates(params, 0))) == []
  {
  }

  lemma GuessEnds(params: Bytes, k: nat)
    requires k <= Windows(params)
    requires |Dedup(Candidates(params, k))| == 64 || (k == Windows(params) && |Dedup(Candidates(params, k))| < 64)
    ensures DecodeSpec(params) == AsTransfers(Dedup(Candidates(params, k)))
  {
    hide Dedup, Candidates, Windows;
    DedupGrows(params, k, Windows(params));
    var all, found := Dedup(Candidates(params, Windows(params))), Dedup(Candidates(params, k));
    assert all[..|found|] == found;
    assert |all| == |found| ==> all == found;
  }
}

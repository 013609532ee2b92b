/** Shard id lists such as 0-4,6-7: parsing, and what a printed list parses back to. */
module Ranges {
  import opened Wrappers
  import opened Discord
  import opened Decimals

  /** strings.Split for a one-character separator; it never returns an empty list. */
  function Split(s: string, sep: char): (pieces: seq<string>)
    ensures |pieces| > 0
  {
    if s == [] then [[]]
    else
      var rest := Split(s[1..], sep);
      if s[0] == sep then [[]] + rest else [[s[0]] + rest[0]] + rest[1..]
  }

  /** The ids from `low` up to but not including `bound` that lie in [0, max). */
  function Kept(low: int, bound: int, max: int): seq<int>
    decreases bound - low
  {
    if bound <= low then []
    else Kept(low, bound - 1, max) + (if 0 <= bound - 1 < max then [bound - 1] else [])
  }

  /** One part of the list: the numbers before the first and after the last dash, both cut down to 32 bits. */
  function ExpandOne(part: string, max: int): seq<int> {
    var ends := Split(part, '-');
    match (ParseInt(ends[0]), ParseInt(ends[|ends| - 1]))
    case (Some(low), Some(hi)) => Kept(Wrap32(low), Wrap32(hi + 1), max)
    case _ => []
  }

  function ExpandAll(parts: seq<string>, max: int): seq<int> {
    if parts == [] then [] else ExpandAll(parts[..|parts| - 1], max) + ExpandOne(parts[|parts| - 1], max)
  }

  function Expand(rangeString: string, max: int): seq<int> {
    ExpandAll(Split(rangeString, ','), max)
  }

  /** The inner loop. Its counter is an int32, and still it ends: it never passes its bound. */
  method AppendKept(before: seq<int>, low: int, hi: int, max: int) returns (result: seq<int>)
    ensures result == before + Kept(Wrap32(low), Wrap32(hi + 1), max)
  {
    var start, bound := Wrap32(low), Wrap32(hi + 1);
    var i := start;
    result := before;
    while i < bound
      invariant start <= i && (i <= bound || i == start) && i == Wrap32(i)
      invariant result == before + Kept(start, i, max)
    {
      if 0 <= i < max {
        result := result + [i];
      }
      i := Wrap32(i + 1);
    }
    assert bound <= start ==> Kept(start, bound, max) == Kept(start, i, max);
  }

  method ReturnRangeInt32(rangeString: string, max: int) returns (result: seq<int>)
    ensures result == Expand(rangeString, max)
  {
    hide ParseInt, Split, Kept;
    var splits := Split(rangeString, ',');
    result := [];
    for k := 0 to |splits|
      invariant result == ExpandAll(splits[..k], max)
    {
      assert splits[..k + 1][..k] == splits[..k];
      var ranges := Split(splits[k], '-');
      var low := ParseInt(ranges[0]);
      if low != None {
        var hi := ParseInt(ranges[|ranges| - 1]);
        if hi != None {
          result := AppendKept(result, low.value, hi.value, max);
        }
      }
    }
    assert splits[..|splits|] == splits;
  }

  // ---------------------------------------------------------------------------------------------------------
  // Any string

  lemma {:induction false} KeptIsInRange(low: int, bound: int, max: int, i: nat)
    requires i < |Kept(low, bound, max)|
    ensures 0 <= Kept(low, bound, max)[i] < max
    decreases bound - low
  {
    if i < |Kept(low, bound - 1, max)| {
      KeptIsInRange(low, bound - 1, max, i);
    }
  }

  lemma {:induction false} ExpandAllIsInRange(parts: seq<string>, max: int, i: nat)
    requires i < |ExpandAll(parts, max)|
    ensures 0 <= ExpandAll(parts, max)[i] < max
  {
    hide Split, ParseInt, Kept;
    var init, last := parts[..|parts| - 1], parts[|parts| - 1];
    if i < |ExpandAll(init, max)| {
      ExpandAllIsInRange(init, max, i);
    } else {
      var ends := Split(last, '-');
      var low, hi := ParseInt(ends[0]), ParseInt(ends[|ends| - 1]);
      KeptIsInRange(Wrap32(low.value), Wrap32(hi.value + 1), max, i - |ExpandAll(init, max)|);
    }
  }

  /** Whatever the string, only ids in [0, max) come out. */
  lemma ExpandIsInRange(rangeString: string, max: int, i: nat)
    requires i < |Expand(rangeString, max)|
    ensures 0 <= Expand(rangeString, max)[i] < max
  {
    ExpandAllIsInRange(Split(rangeString, ','), max, i);
  }

  // ---------------------------------------------------------------------------------------------------------
  // Printed lists

  datatype Range = Single(n: int) | Span(lo: int, hi: int) {
    function Lo(): int { if Single? then n else lo }
    function Hi(): int { if Single? then n else hi }
  }

  function Print(r: Range): string {
    if r.Single? then Format(r.n) else Format(r.lo) + ['-'] + Format(r.hi)
  }

  function PrintAll(rs: seq<Range>): string {
    if rs == [] then [] else if |rs| == 1 then Print(rs[0]) else Print(rs[0]) + [','] + PrintAll(rs[1..])
  }

  function Ascending(lo: int, hi: int): seq<int>
    decreases hi - lo
  {
    if hi < lo then [] else Ascending(lo, hi - 1) + [hi]
  }

  /** The numbers of the ranges that lie below `max`, in order. */
  function Concatenated(rs: seq<Range>, max: int): seq<int> {
    if rs == [] then []
    else
      var last := rs[|rs| - 1];
      Concatenated(rs[..|rs| - 1], max) + Ascending(last.Lo(), if last.Hi() < max then last.Hi() else max - 1)
  }

  lemma {:induction false} AscendingIs(lo: int, hi: int, i: nat)
    ensures |Ascending(lo, hi)| == if hi < lo then 0 else hi - lo + 1
    ensures i < |Ascending(lo, hi)| ==> Ascending(lo, hi)[i] == lo + i
    decreases hi - lo
  {
    if lo <= hi {
      AscendingIs(lo, hi - 1, i);
    }
  }

  /** Numbers a manager may be given: not negative, and small enough for the bound after them to fit an int32. */
  ghost predicate Fits(r: Range) {
    0 <= r.Lo() && 0 <= r.Hi() < 0x7fff_ffff && r.Lo() <= 0x7fff_ffff
  }

  lemma {:induction false} SplitWithout(a: string, sep: char)
    requires sep !in a
    ensures Split(a, sep) == [a]
  {
    if a != [] {
      SplitWithout(a[1..], sep);
      assert [a[0]] + a[1..] == a;
    }
  }

  lemma {:induction false} SplitFirst(a: string, b: string, sep: char)
    requires sep !in a
    ensures Split(a + [sep] + b, sep) == [a] + Split(b, sep)
  {
    var s := a + [sep] + b;
    if a == [] {
      assert s[1..] == b;
    } else {
      assert s[1..] == a[1..] + [sep] + b;
      SplitFirst(a[1..], b, sep);
      assert Split(s[1..], sep)[1..] == Split(b, sep) && [a[0]] + a[1..] == a;
    }
  }

  /** The loop keeps what lies in [0, max): a range that reaches past either end is cut there. */
  lemma {:induction false} KeptIsAscending(lo: int, hi: int, max: int)
    ensures Kept(lo, hi + 1, max) == Ascending(if lo < 0 then 0 else lo, if hi < max then hi else max - 1)
    decreases hi - lo
  {
    if lo <= hi {
      KeptIsAscending(lo, hi - 1, max);
    }
  }

  lemma NumberHasNoSeparators(n: int)
    requires n >= 0
    ensures ',' !in Format(n) && '-' !in Format(n)
  {
    if ',' in Format(n) {
      FormatChars(n, ',');
    }
    FormatNatDigits(n);
  }

  lemma PrintedHasNoComma(r: Range)
    requires 0 <= r.Lo() && 0 <= r.Hi()
    ensures ',' !in Print(r)
  {
    hide Format;
    NumberHasNoSeparators(r.Lo());
    NumberHasNoSeparators(r.Hi());
  }

  lemma PrintedEnds(r: Range)
    requires 0 <= r.Lo() && 0 <= r.Hi()
    ensures var ends := Split(Print(r), '-'); ends[0] == Format(r.Lo()) && ends[|ends| - 1] == Format(r.Hi())
  {
    hide Format, Split;
    NumberHasNoSeparators(r.Lo());
    NumberHasNoSeparators(r.Hi());
    SplitWithout(Format(r.Hi()), '-');
    if r.Span? {
      SplitFirst(Format(r.lo), Format(r.hi), '-');
    }
  }

  /** One printed range expands to its numbers below `max`. */
  lemma PrintedRange(r: Range, max: int)
    requires Fits(r)
    ensures ExpandOne(Print(r), max) == Ascending(r.Lo(), if r.Hi() < max then r.Hi() else max - 1)
  {
    hide ParseInt, Format, Split, Ascending, Kept;
    PrintedEnds(r);
    ParseFormat(r.Lo());
    ParseFormat(r.Hi());
    KeptIsAscending(r.Lo(), r.Hi(), max);
  }

  /** But the largest int32 as the upper end wraps the bound around, and nothing comes out. */
  lemma LargestEndIsLost(lo: int, max: int)
    requires 0 <= lo <= 0x7fff_ffff
    ensures ExpandOne(Print(Span(lo, 0x7fff_ffff)), max) == []
  {
    hide ParseInt, Format, Split;
    PrintedEnds(Span(lo, 0x7fff_ffff));
    ParseFormat(lo);
    ParseFormat(0x7fff_ffff);
  }

  function Printed(rs: seq<Range>): seq<string> {
    if rs == [] then [] else Printed(rs[..|rs| - 1]) + [Print(rs[|rs| - 1])]
  }

  lemma {:induction false} PrintedFirst(rs: seq<Range>)
    requires rs != []
    ensures Printed(rs) == [Print(rs[0])] + Printed(rs[1..])
  {
    if |rs| > 1 {
      PrintedFirst(rs[..|rs| - 1]);
      assert rs[..|rs| - 1][1..] == rs[1..][..|rs| - 2];
    }
  }

  lemma {:induction false} SplitPrinted(rs: seq<Range>)
    requires rs != [] && forall i :: 0 <= i < |rs| ==> Fits(rs[i])
    ensures Split(PrintAll(rs), ',') == Printed(rs)
  {
    PrintedHasNoComma(rs[0]);
    PrintedFirst(rs);
    if |rs| == 1 {
      SplitWithout(Print(rs[0]), ',');
    } else {
      SplitPrinted(rs[1..]);
      SplitFirst(Print(rs[0]), PrintAll(rs[1..]), ',');
    }
  }

  lemma {:induction false} ExpandPrinted(rs: seq<Range>, max: int)
    requires forall i :: 0 <= i < |rs| ==> Fits(rs[i])
    ensures ExpandAll(Printed(rs), max) == Concatenated(rs, max)
  {
    if rs != [] {
      hide ExpandOne;
      ExpandPrinted(rs[..|rs| - 1], max);
      PrintedRange(rs[|rs| - 1], max);
    }
  }

  /** A printed list of ranges parses to the concatenation of its numbers below `max`, in order, repeats and all. */
  lemma {:induction false} PrintedListExpands(rs: seq<Range>, max: int)
    requires forall i :: 0 <= i < |rs| ==> Fits(rs[i])
    ensures Expand(PrintAll(rs), max) == Concatenated(rs, max)
  {
    if rs == [] {
      assert ParseInt([]) == None;
      assert Split([], ',') == [[]] && Split([], '-') == [[]];
      assert ExpandAll([[]], max) == ExpandAll([], max) + ExpandOne([], max);
    } else {
      SplitPrinted(rs);
      ExpandPrinted(rs, max);
    }
  }

  /** Several dashes: what stands between the first and the last one is not looked at. */
  lemma MiddleIsIgnored(a: string, middle: string, b: string, max: int)
    requires '-' !in a && '-' !in b
    ensures ExpandOne(a + ['-'] + (middle + ['-'] + b), max) == ExpandOne(a + ['-'] + b, max)
  {
    hide ParseInt, Kept;
    SplitFirst(a, middle + ['-'] + b, '-');
    SplitFirst(a, b, '-');
    SplitLast(middle, b, '-');
    SplitWithout(b, '-');
  }

  lemma {:induction false} SplitLast(a: string, b: string, sep: char)
    requires sep !in b
    ensures var pieces := Split(a + [sep] + b, sep); pieces[|pieces| - 1] == b && |pieces| > 1
  {
    var s := a + [sep] + b;
    if a == [] {
      SplitWithout(b, sep);
      assert s[1..] == b;
    } else {
      SplitLast(a[1..], b, sep);
      assert s[1..] == a[1..] + [sep] + b;
    }
  }

  /** A part whose first or last number cannot be parsed is skipped, without an error. */
  lemma BadPartIsSkipped(a: string, b: string, max: int)
    requires '-' !in a && '-' !in b && (ParseInt(a) == None || ParseInt(b) == None)
    ensures ExpandOne(a + ['-'] + b, max) == []
    ensures ParseInt(a) == None ==> ExpandOne(a, max) == []
  {
    hide ParseInt, Kept;
    SplitFirst(a, b, '-');
    SplitWithout(b, '-');
    SplitWithout(a, '-');
  }

  // ---------------------------------------------------------------------------------------------------------
  // The shard ids a manager starts with

  /**
   The count is the gateway's own when auto-sharded; an empty list of ids then means all of them. The manager keeps the
   count as its number of shards.
   */
  method GetInitialShardCount(gatewayShards: int, customCount: int, customIDs: string, autoSharded: bool)
    returns (shardIDs: seq<int>, shardCount: int, noShards: int)
    ensures noShards == shardCount
    ensures shardCount == if autoSharded then gatewayShards else customCount
    ensures shardIDs == if autoSharded && customIDs == "" then Ascending(0, shardCount - 1)
                        else Expand(customIDs, shardCount)
    ensures forall i :: 0 <= i < |shardIDs| ==> 0 <= shardIDs[i] < shardCount
  {
    shardIDs := [];
    if autoSharded {
      shardCount := gatewayShards;
      if customIDs == "" {
        var i := 0;
        while i < shardCount
          invariant 0 <= i && (i <= shardCount || i == 0)
          invariant shardIDs == Ascending(0, i - 1)
          invariant forall j :: 0 <= j < |shardIDs| ==> 0 <= shardIDs[j] < shardCount
        {
          shardIDs := shardIDs + [i];
          i := i + 1;
        }
        noShards := shardCount;
        return;
      }
    } else {
      shardCount := customCount;
    }
    shardIDs := ReturnRangeInt32(customIDs, shardCount);
    forall i | 0 <= i < |shardIDs|
      ensures 0 <= shardIDs[i] < shardCount
    {
      ExpandIsInRange(customIDs, shardCount, i);
    }
    noShards := shardCount;
  }
}

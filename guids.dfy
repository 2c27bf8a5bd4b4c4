/**
 * Project GUID assignment, shared by the three decompiler front ends
 * (DecompileTask.cs:1050-1054, DnSpyDecompiler.cs:191-195, ProjectOptionsCreator.cs:177-181).
 *
 * The base GUID is printed in its 36-character form; its last 8 hex digits are read as a signed
 * 32-bit counter. The modules are ordered by location, ignoring case (a stable sort, as
 * Enumerable.OrderBy is), and the k-th module in that order receives the base text's first 28
 * characters followed by the counter plus k, formatted with "X8".
 */
module ProjectGuids {
  import opened Text

  const TwoTo31: int := 0x8000_0000
  const TwoTo32: int := 0x1_0000_0000

  // ---------------------------------------------------------------------------------------
  // Hexadecimal text

  predicate IsHexDigit(c: char) {
    '0' <= c <= '9' || 'a' <= c <= 'f' || 'A' <= c <= 'F'
  }

  function HexValue(c: char): (v: nat)
    requires IsHexDigit(c)
    ensures v < 16
  {
    if '0' <= c <= '9' then c as int - '0' as int
    else if 'a' <= c <= 'f' then c as int - 'a' as int + 10
    else c as int - 'A' as int + 10
  }

  predicate AllHex(s: string) {
    forall i :: 0 <= i < |s| ==> IsHexDigit(s[i])
  }

  /** int.Parse(s, NumberStyles.HexNumber) before the result is narrowed to 32 bits. */
  function ParseHex(s: string): nat
    requires AllHex(s)
  {
    if s == [] then 0 else ParseHex(s[..|s| - 1]) * 16 + HexValue(s[|s| - 1])
  }

  function Pow16(w: nat): nat {
    if w == 0 then 1 else 16 * Pow16(w - 1)
  }

  /** The upper-case hex digit for a value below 16. */
  function HexDigit(d: nat): char
    requires d < 16
  {
    "0123456789ABCDEF"[d]
  }

  /** The low `w` hex digits of `n`, upper case, zero padded. */
  function Hex(n: nat, w: nat): (r: string)
    ensures |r| == w && AllHex(r)
  {
    if w == 0 then "" else Hex(n / 16, w - 1) + [HexDigit(n % 16)]
  }

  lemma {:induction false} ParseHexOfHex(n: nat, w: nat)
    requires n < Pow16(w)
    ensures ParseHex(Hex(n, w)) == n
  {
    if w > 0 {
      var h := Hex(n, w);
      assert h[..|h| - 1] == Hex(n / 16, w - 1);
      assert n / 16 < Pow16(w - 1);
      ParseHexOfHex(n / 16, w - 1);
    }
  }

  lemma Pow16Eight()
    ensures Pow16(8) == TwoTo32
  {
  }

  /** The text "{0:X8}" produces for an int32 counter: its two's-complement bits in 8 hex digits. */
  function FormatX8(n: int): (r: string)
    requires -TwoTo31 <= n < TwoTo31
    ensures |r| == 8
  {
    Hex(n % TwoTo32, 8)
  }

  // ---------------------------------------------------------------------------------------
  // The signed 32-bit counter

  predicate IsInt32(n: int) {
    -TwoTo31 <= n < TwoTo31
  }

  /** int.Parse of 8 hex digits: values from 0x80000000 up read as negative numbers. */
  function ToInt32(v: nat): (n: int)
    requires v < TwoTo32
    ensures IsInt32(n) && n % TwoTo32 == v
  {
    if v >= TwoTo31 then v - TwoTo32 else v
  }

  /** `guidNum++` in an unchecked context: wraps from int.MaxValue to int.MinValue. */
  function Increment32(n: int): (r: int)
    requires IsInt32(n)
    ensures IsInt32(r) && r % TwoTo32 == (n + 1) % TwoTo32
  {
    if n == TwoTo31 - 1 then -TwoTo31 else n + 1
  }

  // ---------------------------------------------------------------------------------------
  // GUID text

  /** The shape of Guid.ToString(): 36 characters ending in eight hex digits. */
  predicate IsGuidText(g: string) {
    |g| == 36 && AllHex(g[28..])
  }

  /** The value of the base GUID's last eight hex digits. */
  function GuidLow(g: string): (v: nat)
    requires IsGuidText(g)
    ensures v < TwoTo32
  {
    assert Pow16(8) == TwoTo32;
    HexBound(g[28..]);
    ParseHex(g[28..])
  }

  lemma {:induction false} HexBound(s: string)
    requires AllHex(s)
    ensures ParseHex(s) < Pow16(|s|)
  {
    if s != [] {
      HexBound(s[..|s| - 1]);
    }
  }

  /** The GUID text that the module with rank `k` in location order receives. */
  function GuidForRank(g: string, k: nat): (r: string)
    requires IsGuidText(g)
    ensures |r| == 36 && r[..28] == g[..28]
  {
    g[..28] + Hex((GuidLow(g) + k) % TwoTo32, 8)
  }

  /** Every module's GUID keeps the base GUID's first 28 characters, and distinct ranks give distinct GUIDs. */
  lemma GuidForRankInjective(g: string, j: nat, k: nat)
    requires IsGuidText(g)
    requires j < k < TwoTo32
    ensures GuidForRank(g, j) != GuidForRank(g, k)
  {
    var a, b := (GuidLow(g) + j) % TwoTo32, (GuidLow(g) + k) % TwoTo32;
    assert a != b;
    Pow16Eight();
    ParseHexOfHex(a, 8);
    ParseHexOfHex(b, 8);
    assert GuidForRank(g, j)[28..] == Hex(a, 8);
    assert GuidForRank(g, k)[28..] == Hex(b, 8);
  }

  // ---------------------------------------------------------------------------------------
  // Ordering the modules by location, ignoring case (stable, like Enumerable.OrderBy)

  predicate KeyLe(locations: seq<string>, i: nat, j: nat)
    requires i < |locations| && j < |locations|
  {
    LessOrEqualIgnoreCase(locations[i], locations[j])
  }

  predicate ValidIndices(locations: seq<string>, s: seq<nat>) {
    forall k :: 0 <= k < |s| ==> s[k] < |locations|
  }

  predicate SortedByLocation(locations: seq<string>, s: seq<nat>)
    requires ValidIndices(locations, s)
  {
    forall i, j :: 0 <= i < j < |s| ==> KeyLe(locations, s[i], s[j])
  }

  /** Modules whose locations compare equal keep their input order. */
  predicate StableByLocation(locations: seq<string>, s: seq<nat>)
    requires ValidIndices(locations, s)
  {
    forall i, j :: 0 <= i < j < |s| && KeyLe(locations, s[j], s[i]) ==> s[i] < s[j]
  }

  /** The number of leading entries of `s` that sort no later than module `x`. */
  function InsertPos(locations: seq<string>, x: nat, s: seq<nat>): (p: nat)
    requires x < |locations| && ValidIndices(locations, s)
    ensures p <= |s|
    ensures forall k :: 0 <= k < p ==> KeyLe(locations, s[k], x)
    ensures p < |s| ==> !KeyLe(locations, s[p], x)
  {
    if s == [] then 0
    else if KeyLe(locations, s[0], x) then 1 + InsertPos(locations, x, s[1..])
    else 0
  }

  function Insert(locations: seq<string>, x: nat, s: seq<nat>): seq<nat>
    requires x < |locations| && ValidIndices(locations, s)
  {
    var p := InsertPos(locations, x, s);
    s[..p] + [x] + s[p..]
  }

  /** The module indices 0..n-1 in location order. */
  function SortPrefix(locations: seq<string>, n: nat): (order: seq<nat>)
    requires n <= |locations|
    ensures |order| == n && ValidIndices(locations, order)
    ensures forall k :: 0 <= k < |order| ==> order[k] < n
  {
    if n == 0 then [] else Insert(locations, n - 1, SortPrefix(locations, n - 1))
  }

  function LocationOrder(locations: seq<string>): (order: seq<nat>)
    ensures |order| == |locations| && ValidIndices(locations, order)
  {
    SortPrefix(locations, |locations|)
  }

  lemma {:induction false} InsertKeepsOrder(locations: seq<string>, x: nat, s: seq<nat>)
    requires x < |locations| && ValidIndices(locations, s)
    requires SortedByLocation(locations, s) && StableByLocation(locations, s)
    requires forall k :: 0 <= k < |s| ==> s[k] < x
    ensures ValidIndices(locations, Insert(locations, x, s))
    ensures SortedByLocation(locations, Insert(locations, x, s))
    ensures StableByLocation(locations, Insert(locations, x, s))
  {
    var p := InsertPos(locations, x, s);
    var r := Insert(locations, x, s);
    // every entry after the insertion point sorts strictly after x
    forall k | p <= k < |s|
      ensures KeyLe(locations, x, s[k]) && !KeyLe(locations, s[k], x)
    {
      LexLeTotal(FoldCase(locations[x]), FoldCase(locations[s[p]]));
      if k > p {
        if KeyLe(locations, s[k], x) {
          LexLeTransitive(FoldCase(locations[s[p]]), FoldCase(locations[s[k]]), FoldCase(locations[x]));
        }
        LexLeTransitive(FoldCase(locations[x]), FoldCase(locations[s[p]]), FoldCase(locations[s[k]]));
      }
    }
    forall i, j | 0 <= i < j < |r|
      ensures KeyLe(locations, r[i], r[j])
      ensures KeyLe(locations, r[j], r[i]) ==> r[i] < r[j]
    {
      if j < p || i > p {
        var i', j' := if i < p then i else i - 1, if j < p then j else j - 1;
        assert r[i] == s[i'] && r[j] == s[j'];
      } else if i == p {
        assert r[i] == x && r[j] == s[j - 1];
      } else if j == p {
        assert r[i] == s[i] && r[j] == x;
      } else {
        assert i < p < j && r[i] == s[i] && r[j] == s[j - 1];
        LexLeTransitive(FoldCase(locations[s[i]]), FoldCase(locations[x]), FoldCase(locations[s[j - 1]]));
      }
    }
  }

  lemma {:induction false} InsertElements(locations: seq<string>, x: nat, s: seq<nat>)
    requires x < |locations| && ValidIndices(locations, s)
    requires Distinct(s) && x !in s
    ensures Distinct(Insert(locations, x, s))
    ensures forall y :: y in Insert(locations, x, s) <==> y == x || y in s
  {
    var p := InsertPos(locations, x, s);
    var r := Insert(locations, x, s);
    assert s == s[..p] + s[p..];
    forall i, j | 0 <= i < j < |r| ensures r[i] != r[j] {
      if i < p && j > p {
        assert r[i] == s[i] && r[j] == s[j - 1];
      } else if i > p {
        assert r[i] == s[i - 1] && r[j] == s[j - 1];
      }
    }
  }

  /** The location order is the stable sort of the module indices by location, ignoring case. */
  lemma {:induction false} SortPrefixIsStableSort(locations: seq<string>, n: nat)
    requires n <= |locations|
    ensures Distinct(SortPrefix(locations, n))
    ensures forall i :: 0 <= i < n <==> i in SortPrefix(locations, n)
    ensures SortedByLocation(locations, SortPrefix(locations, n))
    ensures StableByLocation(locations, SortPrefix(locations, n))
  {
    if n > 0 {
      var s := SortPrefix(locations, n - 1);
      SortPrefixIsStableSort(locations, n - 1);
      InsertKeepsOrder(locations, n - 1, s);
      InsertElements(locations, n - 1, s);
    }
  }

  // ---------------------------------------------------------------------------------------
  // The GUID loop

  /** One step of the counter: it stays congruent to base + k, and prints as base + k in "X8". */
  lemma CounterStep(n: int, v: nat)
    requires IsInt32(n) && n % TwoTo32 == v % TwoTo32
    ensures FormatX8(n) == Hex(v % TwoTo32, 8)
    ensures Increment32(n) % TwoTo32 == (v + 1) % TwoTo32
  {
    ModSucc(n, v);
  }

  /** Numbers congruent modulo 2^32 have congruent successors. */
  lemma ModSucc(n: int, v: int)
    requires n % TwoTo32 == v % TwoTo32
    ensures (n + 1) % TwoTo32 == (v + 1) % TwoTo32
  {
    var a := v % TwoTo32;
    assert n + 1 == (a + 1) + (n / TwoTo32) * TwoTo32;
    assert v + 1 == (a + 1) + (v / TwoTo32) * TwoTo32;
    ModShift(a + 1, n / TwoTo32);
    ModShift(a + 1, v / TwoTo32);
  }

  lemma ModShift(x: int, q: int)
    ensures (x + q * TwoTo32) % TwoTo32 == x % TwoTo32
  {
  }

  /** The rank of module `i` in a permutation of the module indices. */
  lemma RankOf(order: seq<nat>, i: nat) returns (k: nat)
    requires i in order
    ensures k < |order| && order[k] == i
  {
    k :| 0 <= k < |order| && order[k] == i;
  }

  /** When each module holds the GUID of its rank in a permutation, all GUIDs share the prefix and differ. */
  lemma RankedGuids(locations: seq<string>, order: seq<nat>, guids: seq<string>, g: string)
    requires IsGuidText(g) && |guids| == |order| == |locations|
    requires forall i :: 0 <= i < |order| <==> i in order
    requires ValidIndices(locations, order)
    requires forall k :: 0 <= k < |order| ==> guids[order[k]] == GuidForRank(g, k)
    ensures forall i :: 0 <= i < |guids| ==> |guids[i]| == 36 && guids[i][..28] == g[..28]
    ensures |locations| <= TwoTo32 ==> Distinct(guids)
  {
    forall i | 0 <= i < |guids|
      ensures |guids[i]| == 36 && guids[i][..28] == g[..28]
    {
      var k := RankOf(order, i);
      assert guids[i] == GuidForRank(g, k);
    }
    if |locations| <= TwoTo32 {
      forall i, j | 0 <= i < j < |guids| ensures guids[i] != guids[j] {
        var ki := RankOf(order, i);
        var kj := RankOf(order, j);
        assert guids[i] == GuidForRank(g, ki) && guids[j] == GuidForRank(g, kj);
        if ki < kj {
          GuidForRankInjective(g, ki, kj);
        } else {
          GuidForRankInjective(g, kj, ki);
        }
      }
    }
  }

  /** The location order is a permutation of the module indices. */
  lemma LocationOrderPermutes(locations: seq<string>)
    ensures Distinct(LocationOrder(locations))
    ensures forall i :: 0 <= i < |locations| <==> i in LocationOrder(locations)
  {
    SortPrefixIsStableSort(locations, |locations|);
  }

  /** Giving the module of rank k its GUID keeps the GUIDs of the earlier ranks, since ranks name distinct modules. */
  lemma AssignStep(order: seq<nat>, guids: seq<string>, g: string, k: nat, v: string)
    requires IsGuidText(g) && k < |order| && Distinct(order)
    requires forall j :: 0 <= j < |order| ==> order[j] < |guids|
    requires forall j :: 0 <= j < k ==> guids[order[j]] == GuidForRank(g, j)
    requires v == GuidForRank(g, k)
    ensures forall j :: 0 <= j < k + 1 ==> guids[order[k] := v][order[j]] == GuidForRank(g, j)
  {
    forall j | 0 <= j < k + 1 ensures guids[order[k] := v][order[j]] == GuidForRank(g, j) {
      if j < k { assert order[j] != order[k]; }
    }
  }

  /**
   * `foreach (var file in files.OrderBy(location)) file.ProjectGuid = format(guidNum++)`.
   * guids[i] is the GUID given to the i-th loaded module.
   */
  method AssignGuids(locations: seq<string>, baseGuid: string) returns (guids: seq<string>)
    requires IsGuidText(baseGuid)
    ensures |guids| == |locations|
    ensures forall k :: 0 <= k < |locations| ==> guids[LocationOrder(locations)[k]] == GuidForRank(baseGuid, k)
    ensures forall i :: 0 <= i < |guids| ==> |guids[i]| == 36 && guids[i][..28] == baseGuid[..28]
    ensures |locations| <= TwoTo32 ==> Distinct(guids)
  {
    var order := LocationOrder(locations);
    LocationOrderPermutes(locations);
    var prefix := baseGuid[..28];
    var guidNum := ToInt32(GuidLow(baseGuid));
    guids := seq(|locations|, _ => "");
    var k := 0;
    while k < |order|
      invariant 0 <= k <= |order| && |guids| == |locations|
      invariant IsInt32(guidNum) && guidNum % TwoTo32 == (GuidLow(baseGuid) + k) % TwoTo32
      invariant forall j :: 0 <= j < k ==> guids[order[j]] == GuidForRank(baseGuid, j)
    {
      CounterStep(guidNum, GuidLow(baseGuid) + k);
      AssignStep(order, guids, baseGuid, k, prefix + FormatX8(guidNum));
      guids := guids[order[k] := prefix + FormatX8(guidNum)];
      guidNum := Increment32(guidNum);
      k := k + 1;
    }
    RankedGuids(locations, order, guids, baseGuid);
  }
}

/** Longest-prefix match against the special-purpose address tables
    (packages/core/src/data/ip-ranges.ts), for any table contents. */
module IpRanges {
  import opened Wrappers
  import opened Bits

  /** One block: its base, prefix length, and the bucket it earns; no bucket marks a carve-out. */
  datatype Row<B> = Row(base: B, prefix: nat, bucket: Option<string>, name: string, rfc: string)

  datatype RangeMatch = RangeMatch(bucket: string, name: string, rfc: string)

  function Verdict<B>(row: Row<B>): Option<RangeMatch> {
    if row.bucket.Some? then Some(RangeMatch(row.bucket.value, row.name, row.rfc)) else None
  }

  ghost predicate Descending<B>(table: seq<Row<B>>) {
    forall i, j :: 0 <= i < j < |table| ==> table[i].prefix >= table[j].prefix
  }

  /** The most specific of the matching rows; `hits[i]` says whether row `i` matches. */
  ghost predicate IsLongestMatch<B>(table: seq<Row<B>>, hits: seq<bool>, k: nat)
    requires |hits| == |table|
  {
    && k < |table| && hits[k]
    && (forall j :: 0 <= j < |table| && hits[j] ==> table[j].prefix <= table[k].prefix)
  }

  /** The answer of the early-exit scan. */
  function FirstMatch<B>(table: seq<Row<B>>, hits: seq<bool>): Option<RangeMatch>
    requires |hits| == |table|
  {
    if table == [] then None
    else if hits[0] then Verdict(table[0])
    else FirstMatch(table[1..], hits[1..])
  }

  /** Longest-prefix match, as a specification: no matching row, no verdict; otherwise the
      verdict of a most specific one, so that a carve-out hides every shorter row. */
  ghost predicate IsLongestVerdict<B>(table: seq<Row<B>>, hits: seq<bool>, r: Option<RangeMatch>)
    requires |hits| == |table|
  {
    if true in hits then exists k: nat :: IsLongestMatch(table, hits, k) && r == Verdict(table[k]) else r == None
  }

  /** On a table sorted by descending prefix the early-exit scan is longest-prefix match. */
  lemma {:induction false} ScanIsLongestMatch<B>(table: seq<Row<B>>, hits: seq<bool>)
    requires Descending(table) && |hits| == |table|
    ensures IsLongestVerdict(table, hits, FirstMatch(table, hits))
  {
    if table != [] {
      assert hits == [hits[0]] + hits[1..];
      if hits[0] {
        assert IsLongestMatch(table, hits, 0);
      } else {
        ScanIsLongestMatch(table[1..], hits[1..]);
        if true in hits {
          var k: nat :| IsLongestMatch(table[1..], hits[1..], k) && FirstMatch(table[1..], hits[1..]) == Verdict(table[1..][k]);
          forall i | 0 <= i < |table| && hits[i] ensures table[i].prefix <= table[k + 1].prefix {
            assert table[1..][i - 1] == table[i] && hits[1..][i - 1];
          }
          assert IsLongestMatch(table, hits, k + 1);
        }
      }
    }
  }

  /** The verdict does not depend on how ties were sorted when no two matching rows are
      equally specific, as two distinct blocks never are. */
  lemma LongestVerdictUnique<B>(table: seq<Row<B>>, hits: seq<bool>, a: Option<RangeMatch>, b: Option<RangeMatch>)
    requires |hits| == |table|
    requires forall i, j :: 0 <= i < j < |table| && hits[i] && hits[j] ==> table[i].prefix != table[j].prefix
    requires IsLongestVerdict(table, hits, a) && IsLongestVerdict(table, hits, b)
    ensures a == b
  {
    if true in hits {
      var i: nat :| IsLongestMatch(table, hits, i) && a == Verdict(table[i]);
      var j: nat :| IsLongestMatch(table, hits, j) && b == Verdict(table[j]);
      assert i == j;
    }
  }

  // ---------- the sort at load time ----------

  function InsertRow<B(==)>(table: seq<Row<B>>, row: Row<B>): (r: seq<Row<B>>)
    ensures multiset(r) == multiset(table) + multiset{row}
  {
    if table == [] || table[|table| - 1].prefix >= row.prefix then table + [row]
    else
      assert table == table[..|table| - 1] + [table[|table| - 1]];
      InsertRow(table[..|table| - 1], row) + [table[|table| - 1]]
  }

  lemma InsertedFrom<B>(table: seq<Row<B>>, row: Row<B>, i: nat)
    requires i < |InsertRow(table, row)|
    ensures InsertRow(table, row)[i] == row || InsertRow(table, row)[i] in table
  {
    hide InsertRow;
    var r := InsertRow(table, row);
    assert r[i] in multiset(r);
    assert r[i] != row ==> r[i] in multiset(table);
  }

  lemma {:induction false} InsertKeepsDescending<B>(table: seq<Row<B>>, row: Row<B>)
    requires Descending(table)
    ensures Descending(InsertRow(table, row))
  {
    if table != [] && table[|table| - 1].prefix < row.prefix {
      var rest, last := table[..|table| - 1], table[|table| - 1];
      InsertKeepsDescending(rest, row);
      var inner := InsertRow(rest, row);
      forall i | 0 <= i < |inner| ensures inner[i].prefix >= last.prefix {
        InsertedFrom(rest, row, i);
      }
    }
  }

  /** `[...rows].sort((a, b) => b.prefix - a.prefix)`, which is stable. */
  method SortRows<B(==)>(rows: seq<Row<B>>) returns (table: seq<Row<B>>)
    ensures Descending(table) && multiset(table) == multiset(rows)
  {
    table := [];
    for k := 0 to |rows|
      invariant Descending(table) && multiset(table) == multiset(rows[..k])
    {
      assert rows[..k + 1] == rows[..k] + [rows[k]];
      InsertKeepsDescending(table, rows[k]);
      table := InsertRow(table, rows[k]);
    }
    assert rows[..|rows|] == rows;
  }

  // ---------- IPv4 ----------

  /** `((addr ^ row.base) >>> (32 - row.prefix)) === 0`; JavaScript takes shift counts modulo 32. */
  predicate Test4(addr: nat, row: Row<nat>)
  {
    row.prefix <= 32 && Shr(Xor(addr, row.base), (32 - row.prefix) % 32) == 0
  }

  /** The address and the base agree on their top `prefix` bits. */
  predicate Inside4(addr: nat, row: Row<nat>) {
    row.prefix <= 32 && Shr(addr, 32 - row.prefix) == Shr(row.base, 32 - row.prefix)
  }

  /** The test is membership in the block for every prefix from 1 to 32; at prefix 0 the
      shift does nothing and only the base itself passes. */
  lemma Test4Exactly(addr: nat, row: Row<nat>)
    requires row.prefix <= 32
    ensures row.prefix > 0 ==> (Test4(addr, row) <==> Inside4(addr, row))
    ensures row.prefix == 0 ==> (Test4(addr, row) <==> addr == row.base)
  {
    var k := (32 - row.prefix) % 32;
    XorShifts(addr, row.base, k);
    XorZero(Shr(addr, k), Shr(row.base, k));
  }

  function Hits4(table: seq<Row<nat>>, addr: nat): (hits: seq<bool>)
    ensures |hits| == |table| && forall i :: 0 <= i < |table| ==> hits[i] == Test4(addr, table[i])
  {
    seq(|table|, i requires 0 <= i < |table| => Test4(addr, table[i]))
  }

  function MatchIpv4(table: seq<Row<nat>>, addr: nat): Option<RangeMatch> {
    FirstMatch(table, Hits4(table, addr))
  }

  method MatchIpv4Range(table: seq<Row<nat>>, addr: nat) returns (r: Option<RangeMatch>)
    ensures r == MatchIpv4(table, addr)
  {
    hide Test4;
    ghost var hits := Hits4(table, addr);
    assert table[0..] == table && hits[0..] == hits;
    for k := 0 to |table|
      invariant FirstMatch(table, hits) == FirstMatch(table[k..], hits[k..])
    {
      assert table[k..][1..] == table[k + 1..] && hits[k..][1..] == hits[k + 1..];
      if !Test4(addr, table[k]) {
        continue;
      }
      return if table[k].bucket.None? then None else Some(RangeMatch(table[k].bucket.value, table[k].name, table[k].rfc));
    }
    return None;
  }

  /** The rows whose block holds the address. */
  ghost function Inside4All(table: seq<Row<nat>>, addr: nat): (hits: seq<bool>)
    ensures |hits| == |table|
  {
    seq(|table|, i requires 0 <= i < |table| => Inside4(addr, table[i]))
  }

  /** Longest-prefix match on the 32-bit value, for any sorted table with prefixes 1 to 32. */
  lemma Ipv4LongestPrefix(table: seq<Row<nat>>, addr: nat)
    requires Descending(table) && forall i :: 0 <= i < |table| ==> 0 < table[i].prefix <= 32
    ensures IsLongestVerdict(table, Inside4All(table, addr), MatchIpv4(table, addr))
  {
    hide Test4, Inside4, IsLongestVerdict;
    forall i | 0 <= i < |table| ensures Test4(addr, table[i]) <==> Inside4(addr, table[i]) {
      Test4Exactly(addr, table[i]);
    }
    assert Hits4(table, addr) == Inside4All(table, addr);
    ScanIsLongestMatch(table, Hits4(table, addr));
  }

  // ---------- IPv6 ----------

  /** The number that a sequence of 16-bit groups spells, most significant first. */
  function Value(h: seq<nat>): nat {
    if h == [] then 0 else Value(h[..|h| - 1]) * 0x1_0000 + h[|h| - 1]
  }

  ghost predicate AreGroups(h: seq<nat>) {
    |h| == 8 && forall i :: 0 <= i < |h| ==> h[i] < 0x1_0000
  }

  /** `(0xffff << (16 - rest)) & 0xffff` */
  function Mask(rest: nat): nat
    requires rest <= 16
  {
    0xffff * Pow2(16 - rest) % 0x1_0000
  }

  /** Whole groups first, then the partial group under its mask. */
  predicate Test6(h: seq<nat>, row: Row<seq<nat>>)
    requires |h| == 8
  {
    var whole, rest := row.prefix / 16, row.prefix % 16;
    && row.prefix <= 128 && |row.base| == 8
    && (forall i :: 0 <= i < whole ==> h[i] == row.base[i])
    && (rest != 0 ==> And(h[whole], Mask(rest)) == row.base[whole])
  }

  /** The two 128-bit values agree on their top `prefix` bits. */
  predicate Inside6(h: seq<nat>, row: Row<seq<nat>>) {
    row.prefix <= 128 && Shr(Value(h), 128 - row.prefix) == Shr(Value(row.base), 128 - row.prefix)
  }

  /** The base has no bits below its prefix within its partial group. */
  predicate HostBitsClear(row: Row<seq<nat>>) {
    && row.prefix <= 128 && |row.base| == 8
    && (row.prefix % 16 != 0 ==>
          row.base[row.prefix / 16] == Shr(row.base[row.prefix / 16], 16 - row.prefix % 16) * Pow2(16 - row.prefix % 16))
  }

  lemma Pow2Of16()
    ensures Pow2(16) == 0x1_0000
  {
    assert Pow2(4) == 16;
    assert Pow2(8) == 16 * Pow2(4);
    assert Pow2(12) == 16 * Pow2(8);
    assert Pow2(16) == 16 * Pow2(12);
  }

  lemma {:induction false} Pow2Grows(m: nat, n: nat)
    requires m <= n
    ensures 0 < Pow2(m) <= Pow2(n)
    decreases n
  {
    if m < n {
      Pow2Grows(m, n - 1);
    } else {
      Pow2Positive(n);
    }
  }

  /** The mask is the ones above bit `16 - rest`. */
  lemma MaskIsHighOnes(rest: nat)
    requires 0 < rest < 16
    ensures Pow2(16 - rest) <= 0x1_0000 && Mask(rest) == 0x1_0000 - Pow2(16 - rest)
  {
    hide Pow2;
    var p := Pow2(16 - rest);
    Pow2Of16();
    Pow2Grows(16 - rest, 16);
    assert 0xffff * p == (p - 1) * 0x1_0000 + (0x1_0000 - p);
  }

  /** Masking a group compares its top bits, provided the base has none below them. */
  lemma PartialGroup(x: nat, y: nat, rest: nat)
    requires x < 0x1_0000 && y < 0x1_0000 && 0 < rest < 16
    ensures var k := 16 - rest;
      And(x, Mask(rest)) == y <==> Shr(x, k) == Shr(y, k) && y == Shr(y, k) * Pow2(k)
  {
    hide And, Shr, Pow2, Mask;
    var k := 16 - rest;
    Pow2Of16();
    MaskIsHighOnes(rest);
    AndMask(x, 16, k);
    ShiftBack(Shr(x, k), k);
  }

  lemma Shr16(v: nat, x: nat)
    requires x < 0x1_0000
    ensures Shr(v * 0x1_0000 + x, 16) == v
  {
    Pow2Of16();
    ShrConcat(v, x, 16, 16);
    assert Pow2(0) == 1;
  }

  /** Dropping whole groups from the right of a value. */
  lemma {:induction false} ShrGroups(h: seq<nat>, j: nat)
    requires j <= |h| && forall i :: 0 <= i < |h| ==> h[i] < 0x1_0000
    ensures Shr(Value(h), 16 * j) == Value(h[..|h| - j])
    decreases j
  {
    if j == 0 {
      assert h[..|h|] == h;
    } else {
      hide Shr;
      var rest, last := h[..|h| - 1], h[|h| - 1];
      Shr16(Value(rest), last);
      assert Shr(Value(h), 16) == Value(rest);
      ShrAdds(Value(h), 16, 16 * (j - 1));
      ShrGroups(rest, j - 1);
      assert rest[..|rest| - (j - 1)] == h[..|h| - j];
    }
  }

  lemma {:induction false} ValueInjective(a: seq<nat>, b: seq<nat>)
    requires |a| == |b| && (forall i :: 0 <= i < |a| ==> a[i] < 0x1_0000 && b[i] < 0x1_0000)
    ensures Value(a) == Value(b) <==> a == b
  {
    if a != [] {
      var n := |a| - 1;
      ValueInjective(a[..n], b[..n]);
      PairUnique(Value(a[..n]), a[n], Value(b[..n]), b[n], 0x1_0000);
      assert a == a[..n] + [a[n]] && b == b[..n] + [b[n]];
    }
  }

  lemma ValueSnoc(h: seq<nat>, whole: nat)
    requires whole < |h|
    ensures Value(h[..whole + 1]) == Value(h[..whole]) * 0x1_0000 + h[whole]
  {
    assert h[..whole + 1][..whole] == h[..whole];
  }

  /** The top `16 * whole + rest` bits: the whole groups, and the top of the next one. */
  lemma TopBits(h: seq<nat>, whole: nat, rest: nat)
    requires AreGroups(h) && whole < 8 && 0 < rest < 16
    ensures Shr(Value(h), 128 - 16 * whole - rest) == Value(h[..whole]) * Pow2(rest) + Shr(h[whole], 16 - rest)
    ensures Shr(h[whole], 16 - rest) < Pow2(rest)
  {
    hide Value, Shr, Pow2;
    ShrGroups(h, 7 - whole);
    ShrAdds(Value(h), 16 * (7 - whole), 16 - rest);
    assert 16 * (7 - whole) + (16 - rest) == 128 - 16 * whole - rest;
    ValueSnoc(h, whole);
    Pow2Of16();
    ShrConcat(Value(h[..whole]), h[whole], 16, 16 - rest);
  }

  /** The hextet-and-mask test is membership in the block exactly for rows whose host bits
      are clear; any other row with a partial group never matches. */
  lemma Test6Exactly(h: seq<nat>, row: Row<seq<nat>>)
    requires AreGroups(h) && AreGroups(row.base) && row.prefix <= 128
    ensures Test6(h, row) <==> Inside6(h, row) && HostBitsClear(row)
  {
    hide Value, Mask, And, Shr;
    var whole, rest := row.prefix / 16, row.prefix % 16;
    assert (forall i :: 0 <= i < whole ==> h[i] == row.base[i]) <==> h[..whole] == row.base[..whole];
    ValueInjective(h[..whole], row.base[..whole]);
    if rest == 0 {
      ShrGroups(h, 8 - whole);
      ShrGroups(row.base, 8 - whole);
    } else {
      TopBits(h, whole, rest);
      TopBits(row.base, whole, rest);
      PairUnique(Value(h[..whole]), Shr(h[whole], 16 - rest), Value(row.base[..whole]), Shr(row.base[whole], 16 - rest), Pow2(rest));
      PartialGroup(h[whole], row.base[whole], rest);
    }
  }

  function Hits6(table: seq<Row<seq<nat>>>, h: seq<nat>): (hits: seq<bool>)
    requires |h| == 8
    ensures |hits| == |table| && forall i :: 0 <= i < |table| ==> hits[i] == Test6(h, table[i])
  {
    seq(|table|, i requires 0 <= i < |table| => Test6(h, table[i]))
  }

  function MatchIpv6(table: seq<Row<seq<nat>>>, h: seq<nat>): Option<RangeMatch> {
    if |h| == 8 then FirstMatch(table, Hits6(table, h)) else None
  }

  method MatchIpv6Range(table: seq<Row<seq<nat>>>, h: seq<nat>) returns (r: Option<RangeMatch>)
    requires forall i :: 0 <= i < |table| ==> |table[i].base| == 8 && table[i].prefix <= 128
    ensures r == MatchIpv6(table, h)
  {
    if |h| != 8 {
      return None;
    }
    hide And, Mask;
    ghost var hits := Hits6(table, h);
    assert table[0..] == table && hits[0..] == hits;
    for k := 0 to |table|
      invariant FirstMatch(table, hits) == FirstMatch(table[k..], hits[k..])
    {
      assert table[k..][1..] == table[k + 1..] && hits[k..][1..] == hits[k + 1..];
      var row := table[k];
      var equal := WholeGroupsEqual(h, row.base, row.prefix / 16);
      if !equal {
        continue;
      }
      var rest := row.prefix % 16;
      if rest != 0 && And(h[row.prefix / 16], Mask(rest)) != row.base[row.prefix / 16] {
        continue;
      }
      return if row.bucket.None? then None else Some(RangeMatch(row.bucket.value, row.name, row.rfc));
    }
    return None;
  }

  /** The inner index loop. */
  method WholeGroupsEqual(h: seq<nat>, base: seq<nat>, whole: nat) returns (equal: bool)
    requires |h| == 8 && |base| == 8 && whole <= 8
    ensures equal <==> forall i :: 0 <= i < whole ==> h[i] == base[i]
  {
    for i := 0 to whole
      invariant forall j :: 0 <= j < i ==> h[j] == base[j]
    {
      if h[i] != base[i] {
        return false;
      }
    }
    return true;
  }

  ghost function Inside6All(table: seq<Row<seq<nat>>>, h: seq<nat>): (hits: seq<bool>)
    ensures |hits| == |table|
  {
    seq(|table|, i requires 0 <= i < |table| => Inside6(h, table[i]))
  }

  /** Longest-prefix match on the 128-bit value, for any sorted table with clear host bits. */
  lemma Ipv6LongestPrefix(table: seq<Row<seq<nat>>>, h: seq<nat>)
    requires AreGroups(h) && Descending(table)
    requires forall i :: 0 <= i < |table| ==> AreGroups(table[i].base) && table[i].prefix <= 128 && HostBitsClear(table[i])
    ensures IsLongestVerdict(table, Inside6All(table, h), MatchIpv6(table, h))
  {
    hide Test6, Inside6, HostBitsClear, IsLongestVerdict;
    forall i | 0 <= i < |table| ensures Test6(h, table[i]) <==> Inside6(h, table[i]) {
      Test6Exactly(h, table[i]);
    }
    assert Hits6(table, h) == Inside6All(table, h);
    ScanIsLongestMatch(table, Hits6(table, h));
  }
}

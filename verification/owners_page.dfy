/** src/pages/owners.jsx: the per-owner page. The calculations the search returns are narrowed
    to the selected owner, then to those with data, deduplicated by id, grouped by period,
    sorted newest first and paginated. */
module OwnersPage {
  import opened Js
  import opened Records

  // ---------------------------------------------------------------------------
  // The owner filter of fetchOwnerData
  // ---------------------------------------------------------------------------

  /** `String(item.owner)` when truthy, else ''. */
  function OwnerText(o: Owner): (r: string)
    ensures o.NoOwner? ==> r == ""
    ensures o.OwnerName? ==> r == o.name
  {
    match o
    case NoOwner => ""
    case OwnerName(name) => name
    case OwnerRecord(_) => "[object Object]"
  }

  /** The trimmed owner equals the trimmed selected name, ignoring ASCII case. */
  predicate OwnerMatches(c: OwnerCalc, name: string) {
    var mine := Trim(OwnerText(c.owner));
    var wanted := Trim(name);
    ToLower(mine) == ToLower(wanted) || mine == wanted
  }

  /** The filter applied to the search results, in order. */
  function FilterByOwner(cs: seq<OwnerCalc>, name: string): (r: seq<OwnerCalc>)
    ensures forall c :: c in r <==> c in cs && OwnerMatches(c, name)
    ensures |r| <= |cs|
  {
    if |cs| == 0 then []
    else
      assert forall c :: c in cs <==> c == cs[0] || c in cs[1..];
      var rest := FilterByOwner(cs[1..], name);
      if OwnerMatches(cs[0], name) then [cs[0]] + rest else rest
  }

  /** The case in which the owner was selected does not matter. */
  lemma OwnerMatchIgnoresCase(c: OwnerCalc, name: string)
    ensures OwnerMatches(c, name) <==> OwnerMatches(c, ToLower(name))
  {
    TrimToLower(name);
    ToLowerIdempotent(Trim(name));
    ToLowerIdempotent(Trim(OwnerText(c.owner)));
  }

  /** `ownerData.ownerCalculation`: the page's `results`, else the bare array, each filtered
      by owner; nothing when the request failed or returned neither. */
  function OwnerCalculations(reply: ListReply<OwnerCalc>, name: string): (r: seq<OwnerCalc>)
    ensures reply.FailedRequest? || reply.NullBody? || reply.OtherBody? ==> r == []
    ensures forall c :: c in r <==> c in ListOf(reply) && OwnerMatches(c, name)
  {
    FilterByOwner(ListOf(reply), name)
  }

  // ---------------------------------------------------------------------------
  // extractTruckNumber
  // ---------------------------------------------------------------------------

  /** The object truck's truthy `unit_number`, else the item's own truthy `unit_number`,
      else 'N/A'. */
  function ExtractTruckNumber(truck: TruckRef, unitNumber: string): (r: string)
    ensures truck.TruckObject? && truck.unitNumber != "" ==> r == truck.unitNumber
    ensures !(truck.TruckObject? && truck.unitNumber != "") && unitNumber != "" ==> r == unitNumber
    ensures !(truck.TruckObject? && truck.unitNumber != "") && unitNumber == "" ==> r == "N/A"
    ensures r != ""
  {
    if truck.TruckObject? && truck.unitNumber != "" then truck.unitNumber
    else if unitNumber != "" then unitNumber
    else "N/A"
  }

  // ---------------------------------------------------------------------------
  // Valid calculations
  // ---------------------------------------------------------------------------

  /** `total_amount && parseFloat(total_amount) > 0`. */
  predicate AmountPositive(v: Value) {
    Truthy(v) && ParseValue(v).Some? && ParseValue(v).value > 0.0
  }

  /** `total_escrow && parseFloat(total_escrow) !== 0`; NaN is not 0. */
  predicate EscrowNonZero(v: Value) {
    Truthy(v) && ParseValue(v) != Some(0.0)
  }

  /** A calculation shows when it has units, a positive total or a non-zero escrow. */
  predicate IsValid(c: OwnerCalc) {
    (c.calculationUnits.Some? && |c.calculationUnits.value| > 0) || AmountPositive(c.totalAmount) || EscrowNonZero(c.totalEscrow)
  }

  function ValidCalculations(cs: seq<OwnerCalc>): (r: seq<OwnerCalc>)
    ensures forall c :: c in r <==> c in cs && IsValid(c)
    ensures |r| <= |cs|
  {
    if |cs| == 0 then []
    else
      assert forall c :: c in cs <==> c == cs[0] || c in cs[1..];
      var rest := ValidCalculations(cs[1..]);
      if IsValid(cs[0]) then [cs[0]] + rest else rest
  }

  /** An escrow string that does not parse still counts as data, since NaN differs from 0. */
  lemma UnparsableEscrowIsData(c: OwnerCalc)
    requires c.totalEscrow == Str("n/a")
    ensures IsValid(c)
  {
    ParseNoDigit("n/a");
  }

  /** A zero or negative total with no units and no escrow does not. */
  lemma NothingToShow(c: OwnerCalc, total: real)
    requires c.calculationUnits.None? && c.totalAmount == Num(total) && total <= 0.0 && c.totalEscrow == Absent
    ensures !IsValid(c)
  {
  }

  // ---------------------------------------------------------------------------
  // Deduplication by id
  // ---------------------------------------------------------------------------

  predicate IdIn(cs: seq<OwnerCalc>, id: Option<int>) {
    exists j :: 0 <= j < |cs| && cs[j].id == id
  }

  /** Reference definition: a calculation stays when its id is falsy or no earlier calculation
      has the same id. */
  function UniqueById(cs: seq<OwnerCalc>): (r: seq<OwnerCalc>)
    ensures |r| <= |cs|
    ensures forall c :: c in r ==> c in cs
  {
    if |cs| == 0 then []
    else
      var front := cs[..|cs| - 1];
      var c := cs[|cs| - 1];
      assert forall x :: x in front ==> x in cs;
      UniqueById(front) + (if !TruthyId(c.id) || !IdIn(front, c.id) then [c] else [])
  }

  /** The ids of `cs + [c]` are those of `cs` and `c`'s. */
  lemma IdInSnoc(cs: seq<OwnerCalc>, c: OwnerCalc)
    ensures forall n :: IdIn(cs + [c], Some(n)) <==> IdIn(cs, Some(n)) || c.id == Some(n)
    ensures (cs + [c])[..|cs|] == cs
  {
    var s := cs + [c];
    assert s[..|cs|] == cs;
    forall n ensures IdIn(s, Some(n)) <==> IdIn(cs, Some(n)) || c.id == Some(n) {
      if IdIn(cs, Some(n)) {
        var j :| 0 <= j < |cs| && cs[j].id == Some(n);
        assert s[j] == cs[j];
      }
      if c.id == Some(n) {
        assert s[|cs|] == c;
      }
      if IdIn(s, Some(n)) && c.id != Some(n) {
        var j :| 0 <= j < |s| && s[j].id == Some(n);
        assert cs[j] == s[j];
      }
    }
  }

  /** One more calculation is kept exactly when its id is falsy or not seen before. */
  lemma UniqueSnoc(cs: seq<OwnerCalc>, c: OwnerCalc)
    ensures UniqueById(cs + [c]) == UniqueById(cs) + (if !TruthyId(c.id) || !IdIn(cs, c.id) then [c] else [])
  {
    assert (cs + [c])[..|cs|] == cs;
  }

  /** The loop of the page: a set of seen ids, a calculation pushed when its id is truthy and
      unseen or when it has no truthy id. */
  method DedupById(cs: seq<OwnerCalc>) returns (r: seq<OwnerCalc>)
    ensures r == UniqueById(cs)
  {
    r := [];
    var seen: set<int> := {};
    var i := 0;
    while i < |cs|
      invariant 0 <= i <= |cs|
      invariant r == UniqueById(cs[..i])
      invariant forall n :: n in seen <==> n != 0 && IdIn(cs[..i], Some(n))
    {
      var c := cs[i];
      assert cs[..i + 1] == cs[..i] + [c];
      IdInSnoc(cs[..i], c);
      UniqueSnoc(cs[..i], c);
      if TruthyId(c.id) && c.id.value !in seen {
        seen := seen + {c.id.value};
        r := r + [c];
      } else if !TruthyId(c.id) {
        r := r + [c];
      }
      i := i + 1;
    }
    assert cs[..|cs|] == cs;
  }

  predicate TruthyIdsDistinct(r: seq<OwnerCalc>) {
    forall i, j :: 0 <= i < j < |r| && TruthyId(r[i].id) ==> r[i].id != r[j].id
  }

  /** No two kept calculations share a truthy id. */
  lemma {:induction false} UniqueIdsDistinct(cs: seq<OwnerCalc>)
    ensures TruthyIdsDistinct(UniqueById(cs))
  {
    if |cs| > 0 {
      var front := cs[..|cs| - 1];
      var c := cs[|cs| - 1];
      UniqueIdsDistinct(front);
      var a := UniqueById(front);
      var r := UniqueById(cs);
      var kept := !TruthyId(c.id) || !IdIn(front, c.id);
      assert r == a + (if kept then [c] else []);
      forall i, j | 0 <= i < j < |r| && TruthyId(r[i].id) ensures r[i].id != r[j].id {
        if j < |a| {
          assert r[i] == a[i] && r[j] == a[j];
        } else {
          assert kept && r == a + [c];
          assert r[j] == c && r[i] == a[i];
          assert a[i] in front;
          var k :| 0 <= k < |front| && front[k] == a[i];
        }
      }
    }
  }

  /** Every calculation with a falsy id stays, and every truthy id keeps one calculation. */
  lemma {:induction false} UniqueKeepsEveryId(cs: seq<OwnerCalc>, c: OwnerCalc)
    requires c in cs
    ensures !TruthyId(c.id) ==> c in UniqueById(cs)
    ensures IdIn(UniqueById(cs), c.id)
  {
    var front := cs[..|cs| - 1];
    var last := cs[|cs| - 1];
    var r := UniqueById(cs);
    var a := UniqueById(front);
    assert r[..|a|] == a;
    if c == last {
      if !TruthyId(c.id) || !IdIn(front, c.id) {
        assert r[|a|] == c;
      } else {
        var j :| 0 <= j < |front| && front[j].id == c.id;
        UniqueKeepsEveryId(front, front[j]);
        var k :| 0 <= k < |a| && a[k].id == c.id;
        assert r[k] == a[k];
      }
    } else {
      assert c in front by {
        var j :| 0 <= j < |cs| && cs[j] == c;
        assert front[j] == c;
      }
      UniqueKeepsEveryId(front, c);
      if !TruthyId(c.id) {
        var k :| 0 <= k < |a| && a[k] == c;
        assert r[k] == c;
      }
      var k :| 0 <= k < |a| && a[k].id == c.id;
      assert r[k] == a[k];
    }
  }

  // ---------------------------------------------------------------------------
  // Grouping by period
  // ---------------------------------------------------------------------------

  /** `${start_date || 'N/A'}_${end_date || 'N/A'}`. */
  function PeriodKey(c: OwnerCalc): string {
    (if c.startDate != "" then c.startDate else "N/A") + "_" + (if c.endDate != "" then c.endDate else "N/A")
  }

  /** Dates without '_' never share a key unless they are the same dates. */
  lemma PeriodKeyInjective(a: OwnerCalc, b: OwnerCalc)
    requires '_' !in a.startDate && '_' !in b.startDate && '_' !in a.endDate && '_' !in b.endDate
    requires a.startDate != "N/A" && b.startDate != "N/A" && a.endDate != "N/A" && b.endDate != "N/A"
    requires PeriodKey(a) == PeriodKey(b)
    ensures a.startDate == b.startDate && a.endDate == b.endDate
  {
    var sa := if a.startDate != "" then a.startDate else "N/A";
    var sb := if b.startDate != "" then b.startDate else "N/A";
    var ea := if a.endDate != "" then a.endDate else "N/A";
    var eb := if b.endDate != "" then b.endDate else "N/A";
    assert '_' !in "N/A";
    UnderscoreJoinInjective(sa, ea, sb, eb);
  }

  /** Joining with '_' is injective when the left part holds no '_'. */
  lemma UnderscoreJoinInjective(x: string, y: string, x': string, y': string)
    requires '_' !in x && '_' !in x'
    requires x + "_" + y == x' + "_" + y'
    ensures x == x' && y == y'
  {
    var s := x + "_" + y;
    assert s[..|x|] == x && s[|x|] == '_';
    assert s[..|x'|] == x' && s[|x'|] == '_';
    SplitHeadAt(s, '_', |x|);
    SplitHeadAt(s, '_', |x'|);
    assert y == s[|x| + 1..] == y';
  }

  /** The period keys in order of first appearance (`Object.keys` keeps insertion order for
      keys that are not array indices, and a key holding '_' never is one). */
  function PeriodKeys(cs: seq<OwnerCalc>): (ks: seq<string>)
    ensures forall k :: k in ks <==> exists c :: c in cs && PeriodKey(c) == k
    ensures forall i, j :: 0 <= i < j < |ks| ==> ks[i] != ks[j]
  {
    if |cs| == 0 then []
    else
      var front := cs[..|cs| - 1];
      var c := cs[|cs| - 1];
      assert forall x :: x in cs <==> x in front || x == c;
      var ks := PeriodKeys(front);
      if PeriodKey(c) in ks then ks else ks + [PeriodKey(c)]
  }

  /** One period's group: its calculations in order, skipping one whose id (compared with
      `===`, so two missing ids are equal) is already in the group. */
  function PeriodGroup(cs: seq<OwnerCalc>, k: string): (g: seq<OwnerCalc>)
    ensures forall c :: c in g ==> c in cs && PeriodKey(c) == k
    ensures forall i, j :: 0 <= i < j < |g| ==> g[i].id != g[j].id
    ensures (exists c :: c in cs && PeriodKey(c) == k) ==> |g| > 0
  {
    if |cs| == 0 then []
    else
      var front := cs[..|cs| - 1];
      var c := cs[|cs| - 1];
      assert forall x :: x in cs <==> x in front || x == c;
      var g := PeriodGroup(front, k);
      if PeriodKey(c) == k && !IdIn(g, c.id) then g + [c] else g
  }

  /** A period row: the first calculation's id and dates, and the group key. */
  datatype Period = Period(id: Option<int>, startDate: string, endDate: string, key: string)

  function PeriodOf(cs: seq<OwnerCalc>, k: string): (p: Period)
    requires |PeriodGroup(cs, k)| > 0
    ensures p.key == k
  {
    var first := PeriodGroup(cs, k)[0];
    Period(first.id, first.startDate, first.endDate, k)
  }

  /** `hasData`: some calculation of the group is valid. */
  predicate HasData(g: seq<OwnerCalc>) {
    exists c :: c in g && IsValid(c)
  }

  /** The period rows in key order, for the groups that are non-empty and have data. */
  function PeriodRows(cs: seq<OwnerCalc>, ks: seq<string>): (r: seq<Period>)
    ensures |r| <= |ks|
    ensures forall p :: p in r ==> p.key in ks && |PeriodGroup(cs, p.key)| > 0 && p == PeriodOf(cs, p.key)
  {
    if |ks| == 0 then []
    else
      var g := PeriodGroup(cs, ks[0]);
      var rest := PeriodRows(cs, ks[1..]);
      if |g| > 0 && HasData(g) then [PeriodOf(cs, ks[0])] + rest else rest
  }

  /** Every group built from valid calculations passes the data filter, so there is one row
      per key. */
  lemma {:induction false} ValidRowsPerKey(cs: seq<OwnerCalc>, ks: seq<string>)
    requires forall c :: c in cs ==> IsValid(c)
    requires forall k :: k in ks ==> exists c :: c in cs && PeriodKey(c) == k
    ensures |PeriodRows(cs, ks)| == |ks|
  {
    if |ks| > 0 {
      assert ks[0] in ks;
      var g := PeriodGroup(cs, ks[0]);
      assert g[0] in g;
      assert forall k :: k in ks[1..] ==> k in ks;
      ValidRowsPerKey(cs, ks[1..]);
    }
  }

  // ---------------------------------------------------------------------------
  // Sorting: newest start date first
  // ---------------------------------------------------------------------------

  /** Code-unit order on strings. */
  predicate StrLess(a: string, b: string)
    decreases |a|
  {
    if |a| == 0 then |b| > 0
    else if |b| == 0 then false
    else if a[0] < b[0] then true
    else a[0] == b[0] && StrLess(a[1..], b[1..])
  }

  predicate StrLe(a: string, b: string) {
    a == b || StrLess(a, b)
  }

  lemma {:induction false} StrLessTotal(a: string, b: string)
    ensures a == b || StrLess(a, b) || StrLess(b, a)
    decreases |a|
  {
    if |a| > 0 && |b| > 0 && a[0] == b[0] {
      StrLessTotal(a[1..], b[1..]);
      if a[1..] == b[1..] {
        assert a == [a[0]] + a[1..] && b == [b[0]] + b[1..];
      }
    }
  }

  lemma {:induction false} StrLessTrans(a: string, b: string, c: string)
    requires StrLess(a, b) && StrLess(b, c)
    ensures StrLess(a, c)
    decreases |a|
  {
    if |a| > 0 && a[0] == b[0] && b[0] == c[0] {
      StrLessTrans(a[1..], b[1..], c[1..]);
    }
  }

  /** The comparator `b.start_date.localeCompare(a.start_date)` when both dates are set, 0
      otherwise, read as "x may stay in front of y". */
  predicate StaysBefore(x: Period, y: Period) {
    x.startDate == "" || y.startDate == "" || StrLe(y.startDate, x.startDate)
  }

  function Insert(x: Period, s: seq<Period>): (r: seq<Period>)
    ensures multiset(r) == multiset(s) + multiset{x}
    ensures |r| == |s| + 1
  {
    if |s| == 0 then [x]
    else if StaysBefore(x, s[0]) then [x] + s
    else
      assert s == [s[0]] + s[1..];
      [s[0]] + Insert(x, s[1..])
  }

  /** A stable insertion sort with the page's comparator. */
  function SortPeriods(s: seq<Period>): (r: seq<Period>)
    ensures multiset(r) == multiset(s)
    ensures |r| == |s|
  {
    if |s| == 0 then []
    else
      assert s == [s[0]] + s[1..];
      Insert(s[0], SortPeriods(s[1..]))
  }

  predicate AllDated(s: seq<Period>) {
    forall i :: 0 <= i < |s| ==> s[i].startDate != ""
  }

  /** Each start date is at least the next one. */
  predicate NewestFirst(s: seq<Period>) {
    forall i :: 0 <= i < |s| - 1 ==> StrLe(s[i + 1].startDate, s[i].startDate)
  }

  lemma {:induction false} InsertNewestFirst(x: Period, s: seq<Period>)
    requires x.startDate != "" && AllDated(s) && NewestFirst(s)
    ensures NewestFirst(Insert(x, s))
    ensures Insert(x, s)[0] == x || Insert(x, s)[0] == s[0]
  {
    if |s| > 0 && !StaysBefore(x, s[0]) {
      StrLessTotal(x.startDate, s[0].startDate);
      assert AllDated(s[1..]) && NewestFirst(s[1..]) by {
        assert forall i :: 0 <= i < |s[1..]| ==> s[1..][i] == s[i + 1];
      }
      InsertNewestFirst(x, s[1..]);
      var r := Insert(x, s[1..]);
      assert Insert(x, s) == [s[0]] + r;
    }
  }

  lemma {:induction false} SortNewestFirst(s: seq<Period>)
    requires AllDated(s)
    ensures NewestFirst(SortPeriods(s))
    ensures AllDated(SortPeriods(s))
  {
    if |s| > 0 {
      assert AllDated(s[1..]) by {
        assert forall i :: 0 <= i < |s[1..]| ==> s[1..][i] == s[i + 1];
      }
      SortNewestFirst(s[1..]);
      InsertNewestFirst(s[0], SortPeriods(s[1..]));
      var r := SortPeriods(s);
      forall i | 0 <= i < |r| ensures r[i].startDate != "" {
        assert r[i] in multiset(s);
        var j :| 0 <= j < |s| && s[j] == r[i];
      }
    }
  }

  /** Newest first between neighbours is newest first between any two rows. */
  lemma {:induction false} NewestFirstAllPairs(s: seq<Period>, i: int, j: int)
    requires NewestFirst(s) && 0 <= i < j < |s|
    ensures StrLe(s[j].startDate, s[i].startDate)
    decreases j - i
  {
    if j > i + 1 {
      NewestFirstAllPairs(s, i + 1, j);
      if s[j].startDate != s[i + 1].startDate && s[i + 1].startDate != s[i].startDate {
        StrLessTrans(s[j].startDate, s[i + 1].startDate, s[i].startDate);
      }
    }
  }

  /** No two rows share a period key. */
  predicate OneRowPerKey(s: seq<Period>) {
    forall i, j :: 0 <= i < j < |s| ==> s[i].key != s[j].key
  }

  /** A row in front of rows with other keys keeps one row per key. */
  lemma ConsOneRowPerKey(x: Period, s: seq<Period>)
    requires OneRowPerKey(s)
    requires forall p :: p in s ==> p.key != x.key
    ensures OneRowPerKey([x] + s)
  {
    var r := [x] + s;
    forall i, j | 0 <= i < j < |r| ensures r[i].key != r[j].key {
      assert r[j] == s[j - 1] && s[j - 1] in s;
      if i > 0 {
        assert r[i] == s[i - 1];
      }
    }
  }

  /** The rows after the first: one row per key, and the first row's key is not among them. */
  lemma TailOneRowPerKey(s: seq<Period>)
    requires |s| > 0 && OneRowPerKey(s)
    ensures OneRowPerKey(s[1..])
    ensures forall p :: p in s[1..] ==> p.key != s[0].key
  {
    var tail := s[1..];
    forall i, j | 0 <= i < j < |tail| ensures tail[i].key != tail[j].key {
      assert tail[i] == s[i + 1] && tail[j] == s[j + 1];
    }
    forall q | q in tail ensures q.key != s[0].key {
      var m :| 0 <= m < |tail| && tail[m] == q;
      assert tail[m] == s[m + 1];
    }
  }

  /** The keys after the first are distinct and do not hold the first. */
  lemma TailDistinctKeys(ks: seq<string>)
    requires |ks| > 0
    requires forall i, j :: 0 <= i < j < |ks| ==> ks[i] != ks[j]
    ensures forall i, j :: 0 <= i < j < |ks[1..]| ==> ks[1..][i] != ks[1..][j]
    ensures ks[0] !in ks[1..]
  {
    var tail := ks[1..];
    forall i, j | 0 <= i < j < |tail| ensures tail[i] != tail[j] {
      assert tail[i] == ks[i + 1] && tail[j] == ks[j + 1];
    }
    forall m | 0 <= m < |tail| ensures tail[m] != ks[0] {
      assert tail[m] == ks[m + 1];
    }
  }

  /** Distinct keys give one row per key. */
  lemma {:induction false} RowsOneRowPerKey(cs: seq<OwnerCalc>, ks: seq<string>)
    requires forall i, j :: 0 <= i < j < |ks| ==> ks[i] != ks[j]
    ensures OneRowPerKey(PeriodRows(cs, ks))
  {
    if |ks| > 0 {
      TailDistinctKeys(ks);
      RowsOneRowPerKey(cs, ks[1..]);
      var rest := PeriodRows(cs, ks[1..]);
      var g := PeriodGroup(cs, ks[0]);
      if |g| > 0 && HasData(g) {
        ConsOneRowPerKey(PeriodOf(cs, ks[0]), rest);
      }
    }
  }

  /** Inserting a row with a new key keeps one row per key. */
  lemma {:induction false} InsertOneRowPerKey(x: Period, s: seq<Period>)
    requires OneRowPerKey(s)
    requires forall p :: p in s ==> p.key != x.key
    ensures OneRowPerKey(Insert(x, s))
  {
    if |s| > 0 && StaysBefore(x, s[0]) {
      ConsOneRowPerKey(x, s);
    } else if |s| > 0 {
      var tail := s[1..];
      TailOneRowPerKey(s);
      InsertOneRowPerKey(x, tail);
      var rest := Insert(x, tail);
      assert s[0] in s;
      forall q | q in rest ensures q.key != s[0].key {
        assert q in multiset(rest);
      }
      ConsOneRowPerKey(s[0], rest);
    }
  }

  /** Sorting keeps one row per key. */
  lemma {:induction false} SortOneRowPerKey(s: seq<Period>)
    requires OneRowPerKey(s)
    ensures OneRowPerKey(SortPeriods(s))
  {
    if |s| > 0 {
      var tail := s[1..];
      TailOneRowPerKey(s);
      SortOneRowPerKey(tail);
      var sorted := SortPeriods(tail);
      forall q | q in sorted ensures q.key != s[0].key {
        assert q in multiset(tail);
      }
      InsertOneRowPerKey(s[0], sorted);
    }
  }

  // ---------------------------------------------------------------------------
  // Pagination
  // ---------------------------------------------------------------------------

  /** `periods.slice((page - 1) * size, (page - 1) * size + size)`. */
  function Page<T>(s: seq<T>, page: int, size: int): (r: seq<T>)
    ensures |r| <= |s|
    ensures forall x :: x in r ==> x in s
  {
    var r := Slice(s, (page - 1) * size, (page - 1) * size + size);
    assert forall x :: x in r ==> x in s by {
      var a := RelIndex((page - 1) * size, |s|);
      var b := RelIndex((page - 1) * size + size, |s|);
      if a < b {
        assert r == s[a..b];
        forall x | x in r ensures x in s {
          var i :| 0 <= i < |r| && r[i] == x;
          assert s[a + i] == x;
        }
      }
    }
    r
  }

  function Min(a: int, b: int): int {
    if a <= b then a else b
  }

  /** A page holds at most `size` rows: those from `(page - 1) * size` on. */
  lemma PageBounds<T>(s: seq<T>, page: int, size: int)
    requires page >= 1 && size >= 1
    ensures |Page(s, page, size)| <= size
    ensures var a := Min((page - 1) * size, |s|);
            Page(s, page, size) == s[a..Min(a + size, |s|)]
  {
    var a := (page - 1) * size;
    assert a >= 0 by { MulNonNeg(page - 1, size); }
    var r := Page(s, page, size);
    assert r == Slice(s, a, a + size);
    if a + size <= |s| {
      assert r == s[a..a + size];
    } else if a <= |s| {
      assert r == s[a..];
    } else {
      assert r == [];
    }
  }

  /** Whatever the page number and size, a page is one contiguous run of the rows. */
  lemma PageIsSlice<T>(s: seq<T>, page: int, size: int) returns (a: nat, b: nat)
    ensures a <= b <= |s| && Page(s, page, size) == s[a..b]
  {
    var lo := RelIndex((page - 1) * size, |s|);
    var hi := RelIndex((page - 1) * size + size, |s|);
    if lo < hi {
      a, b := lo, hi;
    } else {
      a, b := 0, 0;
    }
  }

  /** A contiguous run of newest-first rows with one row per key keeps both. */
  lemma SliceKeepsOrder(s: seq<Period>, a: nat, b: nat)
    requires a <= b <= |s|
    ensures OneRowPerKey(s) ==> OneRowPerKey(s[a..b])
    ensures NewestFirst(s) ==> NewestFirst(s[a..b])
  {
    assert forall i :: 0 <= i < b - a ==> s[a..b][i] == s[a + i];
  }

  lemma MulNonNeg(x: int, y: int)
    requires x >= 0 && y >= 0
    ensures x * y >= 0
  {
  }

  /** Pages 1 to n in order. */
  function Pages<T>(s: seq<T>, n: nat, size: int): seq<T> {
    if n == 0 then [] else Pages(s, n - 1, size) + Page(s, n, size)
  }

  /** The first n pages concatenate back to the first n * size rows. */
  lemma {:induction false} PagesConcat<T>(s: seq<T>, n: nat, size: int)
    requires size >= 1
    ensures Pages(s, n, size) == s[..Min(n * size, |s|)]
  {
    if n > 0 {
      var p := (n - 1) * size;
      var q := n * size;
      MulSucc(n - 1, size);
      MulNonNeg(n - 1, size);
      PagesConcat(s, n - 1, size);
      PageBounds(s, n, size);
      var a := Min(p, |s|);
      var e := Min(q, |s|);
      assert Min(a + size, |s|) == e;
      assert Pages(s, n, size) == s[..a] + s[a..e];
      PrefixConcat(s, a, e);
    }
  }

  lemma PrefixConcat<T>(s: seq<T>, a: int, e: int)
    requires 0 <= a <= e <= |s|
    ensures s[..a] + s[a..e] == s[..e]
  {
  }

  lemma MulSucc(x: int, y: int)
    ensures x * y + y == (x + 1) * y
  {
  }

  /** Enough pages show every period exactly once, in order. */
  lemma AllPagesCover<T>(s: seq<T>, n: nat, size: int)
    requires size >= 1 && n * size >= |s|
    ensures Pages(s, n, size) == s
  {
    PagesConcat(s, n, size);
  }

  // ---------------------------------------------------------------------------
  // The pipeline
  // ---------------------------------------------------------------------------

  /** All period rows of the page before sorting: valid calculations, deduplicated by id,
      grouped by period in order of first appearance. */
  function PeriodTable(cs: seq<OwnerCalc>): (r: seq<Period>)
    ensures |r| <= |cs|
  {
    var unique := UniqueById(ValidCalculations(cs));
    KeysBound(unique);
    PeriodRows(unique, PeriodKeys(unique))
  }

  /** The rows the page shows: valid calculations, deduplicated by id, grouped by period,
      sorted newest first, then the requested page. */
  method PeriodPage(cs: seq<OwnerCalc>, page: int, size: int) returns (rows: seq<Period>)
    ensures rows == Page(SortPeriods(PeriodTable(cs)), page, size)
    ensures forall p :: p in rows ==> exists c :: c in cs && IsValid(c) && PeriodKey(c) == p.key
    ensures OneRowPerKey(rows)
    ensures (forall c :: c in cs && IsValid(c) ==> c.startDate != "") ==> NewestFirst(rows)
    ensures page >= 1 && size >= 1 ==> |rows| <= size
    ensures |rows| <= |cs|
  {
    var valid := ValidCalculations(cs);
    var unique := DedupById(valid);
    var ks := PeriodKeys(unique);
    var all := PeriodRows(unique, ks);
    var sorted := SortPeriods(all);
    rows := Page(sorted, page, size);
    RowsFromValid(cs, valid, unique, all);
    forall p | p in rows ensures p in all {
      assert p in multiset(sorted);
    }
    KeysBound(unique);
    RowsOneRowPerKey(unique, ks);
    SortOneRowPerKey(all);
    if forall c :: c in cs && IsValid(c) ==> c.startDate != "" {
      forall i | 0 <= i < |all| ensures all[i].startDate != "" {
        assert all[i] in all;
      }
      SortNewestFirst(all);
    }
    ghost var a, b := PageIsSlice(sorted, page, size);
    SliceKeepsOrder(sorted, a, b);
    if page >= 1 && size >= 1 {
      PageBounds(sorted, page, size);
    }
  }

  lemma RowsFromValid(cs: seq<OwnerCalc>, valid: seq<OwnerCalc>, unique: seq<OwnerCalc>, all: seq<Period>)
    requires valid == ValidCalculations(cs) && unique == UniqueById(valid)
    requires all == PeriodRows(unique, PeriodKeys(unique))
    ensures forall p :: p in all ==> exists c :: c in cs && IsValid(c) && PeriodKey(c) == p.key
    ensures forall p :: p in all ==> exists c :: c in cs && IsValid(c) && c.startDate == p.startDate
  {
    forall p | p in all ensures exists c :: c in cs && IsValid(c) && PeriodKey(c) == p.key && c.startDate == p.startDate {
      var g := PeriodGroup(unique, p.key);
      assert g[0] in g;
      assert g[0] in unique;
    }
  }

  lemma {:induction false} KeysBound(cs: seq<OwnerCalc>)
    ensures |PeriodKeys(cs)| <= |cs|
  {
    if |cs| > 0 {
      KeysBound(cs[..|cs| - 1]);
    }
  }
}

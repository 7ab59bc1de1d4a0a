/**
 Search criteria: text fields such as "", "3" or "2,5" that are compiled into
 the WHERE clause of a query, and what they mean when read directly.
 */
module Criteria {
  import opened Tables

  datatype Selection =
    | Random | NearestNeighbor | BroadenRange | ProgressScore | BroadenRangeWithProgressScore | ScoreBased

  datatype Range = Range(offset: nat, length: nat)

  datatype Criterion = Criterion(
    attribs: seq<string>,
    maxParticipants: string,
    minParticipants: string,
    gameMode: string,
    systemType: string,
    vacantOnly: bool,
    vacantParticipants: nat,
    excludeLocked: bool,
    excludeNonHost: bool,
    excludeUserPassword: bool,
    excludeSystemPassword: bool,
    selection: Selection,
    referGid: nat,
    codeword: string,
    range: Range)

  /** A joined row of `gatherings` and `matchmake_sessions`. */
  datatype Row = Row(g: Gathering, m: Session)

  datatype Column = Attrib(i: nat) | MaxParticipants | MinParticipants | GameMode | SystemType

  datatype Clause =
    | Equals(column: Column, v: nat)
    | Between(column: Column, lo: nat, hi: nat)
    | Vacant(n: nat)

  // ---- Decimal text -----------------------------------------------------------------------

  predicate AllDigits(s: string)
  {
    forall i :: 0 <= i < |s| ==> '0' <= s[i] <= '9'
  }

  function Decimal(s: string): (n: nat)
    requires AllDigits(s)
  {
    if s == "" then 0 else 10 * Decimal(s[..|s| - 1]) + (s[|s| - 1] as int - '0' as int)
  }

  /** The bound of an unsigned type of 16 or 32 bits. */
  function Ceiling(bits: nat): (n: nat)
  {
    if bits == 16 then 0x1_0000 else UINT32
  }

  predicate Numeral(s: string, bits: nat)
  {
    s != "" && AllDigits(s) && Decimal(s) < Ceiling(bits)
  }

  /** `strconv.ParseUint(s, 10, bits)`: left to right, stopping at a bad digit or an overflow. */
  method ParseUint(s: string, bits: nat) returns (r: Option<nat>)
    ensures r == if Numeral(s, bits) then Some(Decimal(s)) else None
  {
    if s == "" {
      return None;
    }
    var n := 0;
    for i := 0 to |s|
      invariant AllDigits(s[..i]) && n == Decimal(s[..i]) < Ceiling(bits)
    {
      assert s[..i + 1][..i] == s[..i];
      if !('0' <= s[i] <= '9') {
        return None;
      }
      n := 10 * n + (s[i] as int - '0' as int);
      assert n == Decimal(s[..i + 1]);
      if n >= Ceiling(bits) {
        if AllDigits(s) {
          DecimalGrows(s, i + 1);
        }
        return None;
      }
    }
    assert s[..|s|] == s;
    return Some(n);
  }

  lemma {:induction false} DecimalGrows(s: string, k: nat)
    requires AllDigits(s) && k <= |s|
    ensures Decimal(s[..k]) <= Decimal(s)
    decreases |s|
  {
    if k == |s| {
      assert s[..k] == s;
    } else {
      DecimalGrows(s[..|s| - 1], k);
      assert s[..|s| - 1][..k] == s[..k];
    }
  }

  /** `strings.Cut(s, ",")`. */
  method Cut(s: string) returns (before: string, after: string, found: bool)
    ensures found <==> ',' in s
    ensures found ==> ',' !in before && s == before + "," + after
    ensures !found ==> before == s && after == ""
  {
    for i := 0 to |s|
      invariant ',' !in s[..i]
    {
      if s[i] == ',' {
        return s[..i], s[i + 1..], true;
      }
    }
    return s, "", false;
  }

  // ---- One field --------------------------------------------------------------------------

  /** `s` is `lo,hi` with two numerals around the comma at `k`. */
  predicate RangeAt(s: string, bits: nat, k: int)
  {
    0 <= k < |s| && s[k] == ',' && Numeral(s[..k], bits) && Numeral(s[k + 1..], bits)
  }

  ghost predicate WellFormed(s: string, bits: nat)
  {
    s == "" || Numeral(s, bits) || exists k :: RangeAt(s, bits, k)
  }

  /** The direct reading: nothing asks nothing, a number asks for itself, a pair for what lies between. */
  ghost predicate Reads(s: string, bits: nat, v: nat)
  {
    || s == ""
    || (Numeral(s, bits) && v == Decimal(s))
    || exists k :: RangeAt(s, bits, k) && Decimal(s[..k]) <= v <= Decimal(s[k + 1..])
  }

  lemma OneComma(s: string, bits: nat, k: int, before: string, after: string)
    requires RangeAt(s, bits, k)
    requires ',' !in before && s == before + "," + after
    ensures k == |before| && s[..k] == before && s[k + 1..] == after
  {
    assert s[|before|] == ',';
    assert forall j :: 0 <= j < |before| ==> s[j] == before[j] && before[j] in before;
    assert forall j :: 0 <= j < k ==> s[j] == s[..k][j] && s[j] != ',';
  }

  predicate ClauseOn(clause: Clause, column: Column)
  {
    !clause.Vacant? && clause.column == column
  }

  predicate Satisfies(clause: Clause, v: nat)
  {
    match clause
    case Equals(_, w) => v == w
    case Between(_, lo, hi) => lo <= v <= hi
    case Vacant(_) => true
  }

  /** The clauses of one field; None when it cannot be parsed. */
  method CompileField(column: Column, s: string, bits: nat) returns (r: Option<seq<Clause>>)
    ensures r.Some? <==> WellFormed(s, bits)
    ensures r.Some? ==> |r.value| == (if s == "" then 0 else 1)
    ensures r.Some? && s != "" ==> ClauseOn(r.value[0], column)
    ensures r.Some? && s != "" ==> forall v :: Satisfies(r.value[0], v) <==> Reads(s, bits, v)
  {
    if s == "" {
      return Some([]);
    }
    var before, after, found := Cut(s);
    if found {
      var lo := ParseUint(before, bits);
      var hi := ParseUint(after, bits);
      assert s[..|before|] == before && s[|before| + 1..] == after;
      assert !Numeral(s, bits) by {
        assert s[|before|] == ',';
      }
      forall k | RangeAt(s, bits, k) ensures k == |before| {
        OneComma(s, bits, k, before, after);
      }
      if lo.None? || hi.None? {
        return None;
      }
      assert RangeAt(s, bits, |before|);
      forall v ensures Satisfies(Between(column, lo.value, hi.value), v) <==> Reads(s, bits, v) {
        assert Decimal(s[..|before|]) == lo.value && Decimal(s[|before| + 1..]) == hi.value;
      }
      return Some([Between(column, lo.value, hi.value)]);
    } else {
      var n := ParseUint(before, bits);
      forall k ensures !RangeAt(s, bits, k) {
        assert 0 <= k < |s| ==> s[k] in s && s[k] != ',';
      }
      if n.None? {
        return None;
      }
      return Some([Equals(column, n.value)]);
    }
  }

  // ---- A criterion ------------------------------------------------------------------------

  /** A column of a row; None stands for NULL. */
  function ValueOf(row: Row, column: Column): (v: Option<nat>)
  {
    match column
    case Attrib(i) => if i < |row.m.attribs| then Some(row.m.attribs[i]) else None
    case MaxParticipants => Some(row.g.terms.maxParticipants)
    case MinParticipants => Some(row.g.terms.minParticipants)
    case GameMode => Some(row.m.gameMode)
    case SystemType => Some(row.m.systemType)
  }

  /** SQL's three-valued comparison, collapsed: only a definite truth selects a row. */
  predicate Holds(clause: Clause, row: Row)
  {
    match clause
    case Vacant(n) =>
      row.g.participants != [] && |row.g.participants| + n <= row.g.terms.maxParticipants
    case _ =>
      var v := ValueOf(row, clause.column);
      v.Some? && Satisfies(clause, v.value)
  }

  predicate AllHold(clauses: seq<Clause>, row: Row)
  {
    forall i :: 0 <= i < |clauses| ==> Holds(clauses[i], row)
  }

  /** The fixed part of the WHERE clause. The length of an empty attribute list is NULL. */
  predicate Base(c: Criterion, row: Row)
  {
    && row.g.registered
    && row.g.kind.MatchmakeSession?
    && row.m.referGid == c.referGid
    && row.m.codeword == c.codeword
    && row.m.attribs != []
    && |row.m.attribs| == |c.attribs|
    && (c.excludeLocked ==> row.m.openParticipation)
    && (c.excludeNonHost ==> row.g.host != 0)
    && (c.excludeUserPassword ==> !row.m.userPasswordEnabled)
    && (c.excludeSystemPassword ==> !row.m.systemPasswordEnabled)
  }

  /** Every field that filters can be parsed; attribute 1 does not filter. */
  ghost predicate FieldsWellFormed(c: Criterion)
  {
    && (forall i :: 0 <= i < |c.attribs| && i != 1 ==> WellFormed(c.attribs[i], 32))
    && WellFormed(c.maxParticipants, 16)
    && WellFormed(c.minParticipants, 16)
    && WellFormed(c.gameMode, 32)
    && WellFormed(c.systemType, 32)
  }

  function Seats(c: Criterion): (n: nat)
  {
    if c.vacantParticipants == 0 then 1 else c.vacantParticipants
  }

  /** The criterion, read directly. */
  ghost predicate Accepts(c: Criterion, row: Row)
  {
    && Base(c, row)
    && (forall i :: 0 <= i < |c.attribs| && i != 1 ==> Reads(c.attribs[i], 32, row.m.attribs[i]))
    && Reads(c.maxParticipants, 16, row.g.terms.maxParticipants)
    && Reads(c.minParticipants, 16, row.g.terms.minParticipants)
    && Reads(c.gameMode, 32, row.m.gameMode)
    && Reads(c.systemType, 32, row.m.systemType)
    && (c.vacantOnly ==> row.g.participants != [] && |row.g.participants| + Seats(c) <= row.g.terms.maxParticipants)
  }

  /** The clauses select, among the rows that pass the fixed part, those that field `s` reads. */
  ghost predicate Renders(clauses: seq<Clause>, column: Column, s: string, bits: nat)
  {
    forall row: Row {:trigger AllHold(clauses, row)} ::
      ValueOf(row, column).Some? ==> (AllHold(clauses, row) <==> Reads(s, bits, ValueOf(row, column).value))
  }

  lemma FieldRenders(clauses: seq<Clause>, column: Column, s: string, bits: nat)
    requires |clauses| == (if s == "" then 0 else 1)
    requires s != "" ==> ClauseOn(clauses[0], column)
    requires s != "" ==> forall v :: Satisfies(clauses[0], v) <==> Reads(s, bits, v)
    ensures Renders(clauses, column, s, bits)
  {
  }

  lemma HoldConcat(a: seq<Clause>, b: seq<Clause>, row: Row)
    ensures AllHold(a + b, row) <==> AllHold(a, row) && AllHold(b, row)
  {
    if AllHold(a + b, row) {
      forall i | 0 <= i < |a| ensures Holds(a[i], row) { assert a[i] == (a + b)[i]; }
      forall i | 0 <= i < |b| ensures Holds(b[i], row) { assert b[i] == (a + b)[|a| + i]; }
    }
  }

  ghost predicate AttribsRead(c: Criterion, row: Row, n: nat)
    requires |row.m.attribs| == |c.attribs|
  {
    forall i :: 0 <= i < n && i < |c.attribs| && i != 1 ==> Reads(c.attribs[i], 32, row.m.attribs[i])
  }

  /** The attribute loop. */
  method CompileAttribs(c: Criterion) returns (r: Option<seq<Clause>>)
    ensures r.Some? <==> forall i :: 0 <= i < |c.attribs| && i != 1 ==> WellFormed(c.attribs[i], 32)
    ensures r.Some? ==> forall row: Row {:trigger AllHold(r.value, row)} :: |row.m.attribs| == |c.attribs| ==>
              (AllHold(r.value, row) <==> AttribsRead(c, row, |c.attribs|))
  {
    var clauses := [];
    for i := 0 to |c.attribs|
      invariant forall j :: 0 <= j < i && j != 1 ==> WellFormed(c.attribs[j], 32)
      invariant forall row: Row {:trigger AllHold(clauses, row)} :: |row.m.attribs| == |c.attribs| ==>
                  (AllHold(clauses, row) <==> AttribsRead(c, row, i))
    {
      if i != 1 {
        var field := CompileField(Attrib(i), c.attribs[i], 32);
        if field.None? {
          return None;
        }
        FieldRenders(field.value, Attrib(i), c.attribs[i], 32);
        forall row: Row | |row.m.attribs| == |c.attribs|
          ensures AllHold(clauses + field.value, row) <==> AttribsRead(c, row, i + 1)
        {
          HoldConcat(clauses, field.value, row);
          assert ValueOf(row, Attrib(i)) == Some(row.m.attribs[i]);
          assert AllHold(clauses, row) <==> AttribsRead(c, row, i);
          assert AllHold(field.value, row) <==> Reads(c.attribs[i], 32, row.m.attribs[i]);
        }
        clauses := clauses + field.value;
      }
    }
    return Some(clauses);
  }

  /** The conjunction that a criterion adds to the query; None when a filter field cannot be parsed. */
  method Compile(c: Criterion) returns (r: Option<seq<Clause>>)
    ensures r.Some? <==> FieldsWellFormed(c)
    ensures r.Some? ==> forall row: Row {:trigger AllHold(r.value, row)} ::
              Base(c, row) ==> (AllHold(r.value, row) <==> Accepts(c, row))
  {
    var attribs := CompileAttribs(c);
    if attribs.None? {
      return None;
    }
    var maximum := CompileField(MaxParticipants, c.maxParticipants, 16);
    if maximum.None? {
      return None;
    }
    var minimum := CompileField(MinParticipants, c.minParticipants, 16);
    if minimum.None? {
      return None;
    }
    var gameMode := CompileField(GameMode, c.gameMode, 32);
    if gameMode.None? {
      return None;
    }
    var systemType := CompileField(SystemType, c.systemType, 32);
    if systemType.None? {
      return None;
    }
    hide Reads, WellFormed;
    var vacancy := if c.vacantOnly then [Vacant(Seats(c))] else [];
    var clauses := attribs.value + maximum.value + minimum.value + gameMode.value + systemType.value + vacancy;
    FieldRenders(maximum.value, MaxParticipants, c.maxParticipants, 16);
    FieldRenders(minimum.value, MinParticipants, c.minParticipants, 16);
    FieldRenders(gameMode.value, GameMode, c.gameMode, 32);
    FieldRenders(systemType.value, SystemType, c.systemType, 32);
    forall row: Row | Base(c, row) ensures AllHold(clauses, row) <==> Accepts(c, row) {
      HoldConcat6(attribs.value, maximum.value, minimum.value, gameMode.value, systemType.value, vacancy, row);
      assert AllHold(attribs.value, row) <==> AttribsRead(c, row, |c.attribs|);
      assert AllHold(maximum.value, row) <==> Reads(c.maxParticipants, 16, row.g.terms.maxParticipants);
      assert AllHold(minimum.value, row) <==> Reads(c.minParticipants, 16, row.g.terms.minParticipants);
      assert AllHold(gameMode.value, row) <==> Reads(c.gameMode, 32, row.m.gameMode);
      assert AllHold(systemType.value, row) <==> Reads(c.systemType, 32, row.m.systemType);
      if c.vacantOnly {
        assert vacancy[0] == Vacant(Seats(c));
      }
    }
    return Some(clauses);
  }

  lemma HoldConcat6(a: seq<Clause>, b: seq<Clause>, c: seq<Clause>, d: seq<Clause>, e: seq<Clause>,
                    f: seq<Clause>, row: Row)
    ensures AllHold(a + b + c + d + e + f, row) <==>
            AllHold(a, row) && AllHold(b, row) && AllHold(c, row) && AllHold(d, row) && AllHold(e, row) && AllHold(f, row)
  {
    HoldConcat(a, b, row);
    HoldConcat(a + b, c, row);
    HoldConcat(a + b + c, d, row);
    HoldConcat(a + b + c + d, e, row);
    HoldConcat(a + b + c + d + e, f, row);
  }

  // ---- What the fields and flags mean -------------------------------------------------------

  /** A number as a client prints it. */
  function Text(n: nat): (s: string)
  {
    var digit := ['0' + (n % 10) as char];
    if n < 10 then digit else Text(n / 10) + digit
  }

  lemma {:induction false} TextReads(n: nat)
    ensures Text(n) != "" && AllDigits(Text(n)) && Decimal(Text(n)) == n
  {
    if n >= 10 {
      TextReads(n / 10);
      var front := Text(n / 10);
      assert Text(n)[..|Text(n)| - 1] == front;
    } else {
      assert Text(n)[..0] == "";
    }
  }

  /** A printed number in a field asks for that number; it is well-formed exactly below the bound. */
  lemma NumberReads(n: nat, bits: nat, v: nat)
    requires bits == 16 || bits == 32
    ensures WellFormed(Text(n), bits) <==> n < if bits == 16 then 0x1_0000 else 0x1_0000_0000
    ensures WellFormed(Text(n), bits) ==> (Reads(Text(n), bits, v) <==> v == n)
  {
    TextReads(n);
    forall k ensures !RangeAt(Text(n), bits, k) {
    }
  }

  /** Two printed numbers with a comma ask for what lies between them. */
  lemma PairReads(lo: nat, hi: nat, bits: nat, v: nat)
    requires bits == 16 || bits == 32
    ensures var s, bound := Text(lo) + "," + Text(hi), if bits == 16 then 0x1_0000 else 0x1_0000_0000;
            && (WellFormed(s, bits) <==> lo < bound && hi < bound)
            && (WellFormed(s, bits) ==> (Reads(s, bits, v) <==> lo <= v <= hi))
  {
    TextReads(lo);
    TextReads(hi);
    PairRange(Text(lo), Text(hi), bits, v);
    assert Numeral(Text(lo), bits) <==> lo < Ceiling(bits);
    assert Numeral(Text(hi), bits) <==> hi < Ceiling(bits);
    hide Text, Decimal, AllDigits, Numeral, WellFormed, Reads;
  }

  lemma PairRange(before: string, after: string, bits: nat, v: nat)
    requires AllDigits(before) && AllDigits(after)
    ensures var s := before + "," + after;
            && (WellFormed(s, bits) <==> Numeral(before, bits) && Numeral(after, bits))
            && (WellFormed(s, bits) ==> (Reads(s, bits, v) <==> Decimal(before) <= v <= Decimal(after)))
  {
    var s, k := before + "," + after, |before|;
    assert s[k] == ',' && s[..k] == before && s[k + 1..] == after;
    assert !AllDigits(s);
    forall j | RangeAt(s, bits, j) ensures j == k {
      OneComma(s, bits, j, before, after);
    }
    assert RangeAt(s, bits, k) <==> Numeral(before, bits) && Numeral(after, bits);
    hide Decimal, AllDigits, Numeral;
  }

  /** Each exclusion filters by its own column. */
  lemma FlagsFilter(c: Criterion, row: Row)
    ensures Accepts(c.(excludeLocked := true), row) <==>
            Accepts(c.(excludeLocked := false), row) && row.m.openParticipation
    ensures Accepts(c.(excludeNonHost := true), row) <==> Accepts(c.(excludeNonHost := false), row) && row.g.host != 0
    ensures Accepts(c.(excludeUserPassword := true), row) <==>
            Accepts(c.(excludeUserPassword := false), row) && !row.m.userPasswordEnabled
    ensures Accepts(c.(excludeSystemPassword := true), row) <==>
            Accepts(c.(excludeSystemPassword := false), row) && !row.m.systemPasswordEnabled
  {
    AcceptsByParts(c, c.(excludeLocked := true), row);
    AcceptsByParts(c, c.(excludeLocked := false), row);
    AcceptsByParts(c, c.(excludeNonHost := true), row);
    AcceptsByParts(c, c.(excludeNonHost := false), row);
    AcceptsByParts(c, c.(excludeUserPassword := true), row);
    AcceptsByParts(c, c.(excludeUserPassword := false), row);
    AcceptsByParts(c, c.(excludeSystemPassword := true), row);
    AcceptsByParts(c, c.(excludeSystemPassword := false), row);
    hide Accepts;
  }

  /** The part of a criterion beside its fixed part. */
  ghost predicate AcceptsFields(c: Criterion, row: Row)
  {
    Accepts(c.(excludeLocked := false, excludeNonHost := false, excludeUserPassword := false,
               excludeSystemPassword := false), row)
  }

  lemma AcceptsByParts(c: Criterion, d: Criterion, row: Row)
    requires d == c.(excludeLocked := d.excludeLocked, excludeNonHost := d.excludeNonHost,
                     excludeUserPassword := d.excludeUserPassword, excludeSystemPassword := d.excludeSystemPassword)
    ensures Accepts(d, row) <==> AcceptsFields(c, row) && Base(d, row)
  {
    hide Reads;
  }

  /** VacantOnly asks for room for the party, and an empty session has none. */
  lemma VacancyFilters(c: Criterion, row: Row)
    ensures var seats := if c.vacantParticipants == 0 then 1 else c.vacantParticipants;
            Accepts(c.(vacantOnly := true), row) <==>
            && Accepts(c.(vacantOnly := false), row)
            && row.g.participants != [] && |row.g.participants| + seats <= row.g.terms.maxParticipants
  {
    hide Reads;
  }

  /** A criterion without texts and flags asks for the fixed columns, and every criterion asks for those. */
  lemma FixedColumns(c: Criterion, row: Row)
    ensures var fixed := row.g.registered && row.g.kind.MatchmakeSession? && c.referGid == row.m.referGid
                         && c.codeword == row.m.codeword && |c.attribs| == |row.m.attribs| > 0;
            && (Accepts(c, row) ==> fixed)
            && (!c.vacantOnly && !c.excludeLocked && !c.excludeNonHost && !c.excludeUserPassword
                && !c.excludeSystemPassword && c.maxParticipants == c.minParticipants == c.gameMode == c.systemType == ""
                && (forall i :: 0 <= i < |c.attribs| ==> c.attribs[i] == "") ==>
                (Accepts(c, row) <==> fixed))
  {
    forall bits, v ensures Reads("", bits, v) {
    }
    hide Reads;
  }

  /** Each text field filters by its own column; attribute 1 does not filter. */
  lemma FieldsFilter(c: Criterion, row: Row, text: string)
    ensures Accepts(c.(maxParticipants := text), row) <==>
            Accepts(c.(maxParticipants := ""), row) && Reads(text, 16, row.g.terms.maxParticipants)
    ensures Accepts(c.(minParticipants := text), row) <==>
            Accepts(c.(minParticipants := ""), row) && Reads(text, 16, row.g.terms.minParticipants)
  {
    ReadsNothing(16, row.g.terms.maxParticipants);
    ReadsNothing(16, row.g.terms.minParticipants);
    hide Reads;
  }

  lemma ModesFilter(c: Criterion, row: Row, text: string)
    ensures Accepts(c.(gameMode := text), row) <==> Accepts(c.(gameMode := ""), row) && Reads(text, 32, row.m.gameMode)
    ensures Accepts(c.(systemType := text), row) <==>
            Accepts(c.(systemType := ""), row) && Reads(text, 32, row.m.systemType)
  {
    ReadsNothing(32, row.m.gameMode);
    ReadsNothing(32, row.m.systemType);
    hide Reads;
  }

  lemma ReadsNothing(bits: nat, v: nat)
    ensures Reads("", bits, v)
  {
  }

  lemma AttributesFilter(c: Criterion, row: Row, i: nat, text: string)
    requires i < |c.attribs| == |row.m.attribs|
    ensures Accepts(c.(attribs := c.attribs[i := text]), row) <==>
            Accepts(c.(attribs := c.attribs[i := ""]), row) && (i != 1 ==> Reads(text, 32, row.m.attribs[i]))
  {
    var x, y := c.(attribs := c.attribs[i := text]), c.(attribs := c.attribs[i := ""]);
    assert Reads("", 32, row.m.attribs[i]);
    hide Reads;
    assert forall j :: 0 <= j < |c.attribs| && j != i ==> x.attribs[j] == y.attribs[j];
    assert x.attribs[i] == text && y.attribs[i] == "";
  }
}

// A ledger that lists one row twice can make a review change its own result.
module ReviewRepeated {
  import opened Options
  import opened Observation
  import opened Ordering
  import opened Sorting
  import opened Bags
  import opened Proposal
  import opened Review
  import opened ReviewGrowth
  import opened ReviewSettled

  /** A listed row with no provenance, and the same row once `q` supports it. */
  function Bare(v: TypedValue, caption: string): LedgerRow { LedgerRow(v, caption, []) }

  function Backed(v: TypedValue, caption: string, q: Provenance): LedgerRow { LedgerRow(v, caption, [q]) }

  lemma {:induction false} MergesToOne(codec: Codec, q: Provenance)
    requires codec.Faithful()
    ensures MergeProvenance(codec, [], [q]) == [q] && MergeProvenance(codec, [], []) == []
  {
    ProvenanceOrder(codec);
    SortDedupOfStrict([q], codec.ProvenanceLe());
    assert [] + [q] == [q];
    SortDedupOfStrict([], codec.ProvenanceLe());
  }

  /** The first copy is the one that is found. */
  lemma {:induction false} FirstTime(lex: Lexicon, rows: seq<LedgerRow>, v: TypedValue, caption: string, q: Provenance)
    requires lex.codec.Faithful() && |rows| == 2 && rows[0] == rows[1] == Bare(v, caption)
    ensures AddLedgerRow(lex, rows, v, caption, [q]) == Some(rows[0 := Backed(v, caption, q)])
  {
    MergesToOne(lex.codec, q);
    IndexUnique(rows, LedgerRowMatch(v, caption), 0);
  }

  /** A row that is not listed yet is added, and the list is sorted. */
  lemma {:induction false} AnotherRow(lex: Lexicon, rows: seq<LedgerRow>, w: TypedValue, other: string)
    requires forall i :: 0 <= i < |rows| ==> rows[i].value != w
    ensures AddLedgerRow(lex, rows, w, other, []) == Some(Sort(rows + [Bare(w, other)], LedgerRowLe(lex)))
  {
    IndexUnique(rows, LedgerRowMatch(w, other), |rows|);
  }

  lemma {:induction false} FirstMatch<T>(rows: seq<T>, le: (T, T) -> bool, p: T -> bool, b: T)
    requires Sorted(rows, le) && b in rows && p(b)
    ensures var k := IndexOf(rows, p); k < |rows| && (rows[k] == b || le(rows[k], b))
  {
    var j :| 0 <= j < |rows| && rows[j] == b;
    var k := IndexOf(rows, p);
    assert k <= j;
  }

  lemma {:induction false} OneOfTwo(given: seq<LedgerRow>, v: TypedValue, caption: string, r: LedgerRow)
    requires |given| == 3 && given[2].value != v && r in given && r.value == v
             && given[0].caption == given[1].caption == caption
    ensures (r == given[0] || r == given[1]) && r.caption == caption
  {}

  /** Sorting brings the copy without support to the front of the two. */
  lemma {:induction false} BareFirst(given: seq<LedgerRow>, rows: seq<LedgerRow>, le: (LedgerRow, LedgerRow) -> bool,
                                     v: TypedValue, caption: string,
                  q: Provenance)
    requires Sorted(rows, le) && (forall r :: r in given <==> r in rows) && |given| == 3
    requires given[0] == Backed(v, caption, q) && given[1] == Bare(v, caption) && given[2].value != v
             && !le(given[0], given[1])
    ensures var k := IndexOf(rows, LedgerRowMatch(v, caption)); k < |rows| && rows[k] == Bare(v, caption)
    ensures !LedgerRowConflict(rows, v, caption)
  {
    assert given[1] in rows;
    FirstMatch(rows, le, LedgerRowMatch(v, caption), given[1]);
    var k := IndexOf(rows, LedgerRowMatch(v, caption));
    OneOfTwo(given, v, caption, rows[k]);
    forall i | 0 <= i < |rows| && rows[i].value == v ensures rows[i].caption == caption {
      assert rows[i] in given;
      OneOfTwo(given, v, caption, rows[i]);
    }
  }

  lemma {:induction false} RowOrder(lex: Lexicon)
    ensures TotalPreorder(LedgerRowLe(lex))
  {
    StrOrder();
  }

  /** The second time the other copy is found, and changes. */
  lemma {:induction false} SecondTime(lex: Lexicon, rows: seq<LedgerRow>, v: TypedValue, caption: string, q: Provenance)
    requires lex.codec.Faithful() && !LedgerRowConflict(rows, v, caption)
    requires var k := IndexOf(rows, LedgerRowMatch(v, caption)); k < |rows| && rows[k] == Bare(v, caption)
    ensures var k := IndexOf(rows, LedgerRowMatch(v, caption));
      AddLedgerRow(lex, rows, v, caption, [q]) == Some(rows[k := Backed(v, caption, q)])
  {
    MergesToOne(lex.codec, q);
  }

  /** Listing one row again leaves the others as they are. */
  lemma {:induction false} OthersKept(lex: Lexicon, rows: seq<LedgerRow>, w: TypedValue, other: string, k: nat)
    requires !LedgerRowConflict(rows, w, other) && Bare(w, other) in rows && k < |rows| && rows[k].value != w
    ensures AddLedgerRow(lex, rows, w, other, []).Some?
    ensures k < |AddLedgerRow(lex, rows, w, other, []).value|
            && AddLedgerRow(lex, rows, w, other, []).value[k] == rows[k]
  {
    var j :| 0 <= j < |rows| && rows[j] == Bare(w, other);
    assert LedgerRowMatch(w, other)(rows[j]);
  }

  /** The row `v` sorts behind its own copy as soon as `q` supports it. */
  predicate FallsBehind(lex: Lexicon, v: TypedValue, caption: string, q: Provenance) {
    !StrLe(lex.rowText(Backed(v, caption, q)), lex.rowText(Bare(v, caption)))
  }

  /** The copy without support is the one that would be found, and the other row is listed too. */
  ghost predicate Ready(rows: seq<LedgerRow>, v: TypedValue, caption: string, w: TypedValue, other: string) {
    && IndexOf(rows, LedgerRowMatch(v, caption)) < |rows|
       && rows[IndexOf(rows, LedgerRowMatch(v, caption))] == Bare(v, caption)
    && !LedgerRowConflict(rows, v, caption) && Bare(w, other) in rows && !LedgerRowConflict(rows, w, other)
  }

  lemma {:induction false} SortedReady(given: seq<LedgerRow>, rows: seq<LedgerRow>, le: (LedgerRow, LedgerRow) -> bool,
                                       v: TypedValue,
                                       caption: string, q: Provenance, w: TypedValue, other: string)
    requires Sorted(rows, le) && (forall r :: r in given <==> r in rows) && |given| == 3 && v != w
    requires given[0] == Backed(v, caption, q) && given[1] == Bare(v, caption) && given[2] == Bare(w, other)
             && !le(given[0], given[1])
    ensures Ready(rows, v, caption, w, other)
  {
    BareFirst(given, rows, le, v, caption, q);
    assert given[2] in rows;
    forall i | 0 <= i < |rows| && rows[i].value == w ensures rows[i].caption == other { assert rows[i] in given; }
  }

  lemma {:induction false} SortIs(lex: Lexicon, given: seq<LedgerRow>)
    ensures Sorted(Sort(given, LedgerRowLe(lex)), LedgerRowLe(lex))
    ensures forall r :: r in given <==> r in Sort(given, LedgerRowLe(lex))
  {
    RowOrder(lex);
    SortSorted(given, LedgerRowLe(lex));
    SameMembers(given, Sort(given, LedgerRowLe(lex)));
  }

  lemma {:induction false} SortedOne(lex: Lexicon, given: seq<LedgerRow>, v: TypedValue, caption: string,
                                     q: Provenance, w: TypedValue,
                                     other: string)
    requires |given| == 3 && v != w && FallsBehind(lex, v, caption, q)
    requires given[0] == Backed(v, caption, q) && given[1] == Bare(v, caption) && given[2] == Bare(w, other)
    ensures Ready(Sort(given, LedgerRowLe(lex)), v, caption, w, other)
  {
    SortIs(lex, given);
    SortedReady(given, Sort(given, LedgerRowLe(lex)), LedgerRowLe(lex), v, caption, q, w, other);
  }

  /** After both rows were listed once, listing them again finds the other copy. */
  lemma {:induction false} ListedOnce(lex: Lexicon, rows: seq<LedgerRow>, v: TypedValue, caption: string,
                                      q: Provenance, w: TypedValue,
                                      other: string) returns (first: seq<LedgerRow>, once: seq<LedgerRow>)
    requires lex.codec.Faithful() && |rows| == 2 && rows[0] == rows[1] == Bare(v, caption) && v != w
             && FallsBehind(lex, v, caption, q)
    ensures AddLedgerRow(lex, rows, v, caption, [q]) == Some(first)
            && AddLedgerRow(lex, first, w, other, []) == Some(once)
    ensures Ready(once, v, caption, w, other)
  {
    FirstTime(lex, rows, v, caption, q);
    first := rows[0 := Backed(v, caption, q)];
    AnotherRow(lex, first, w, other);
    once := Sort(first + [Bare(w, other)], LedgerRowLe(lex));
    SortedOne(lex, first + [Bare(w, other)], v, caption, q, w, other);
  }

  lemma {:induction false} ListedTwice(lex: Lexicon, once: seq<LedgerRow>, v: TypedValue, caption: string,
                                       q: Provenance, w: TypedValue,
                                       other: string) returns (again: seq<LedgerRow>, twice: seq<LedgerRow>)
    requires lex.codec.Faithful() && v != w && Ready(once, v, caption, w, other)
    ensures AddLedgerRow(lex, once, v, caption, [q]) == Some(again)
            && AddLedgerRow(lex, again, w, other, []) == Some(twice)
    ensures twice != once
  {
    SecondTime(lex, once, v, caption, q);
    var k := IndexOf(once, LedgerRowMatch(v, caption));
    again := once[k := Backed(v, caption, q)];
    var j :| 0 <= j < |once| && once[j] == Bare(w, other);
    StillListed(once, k, j, v, caption, q, w, other);
    OthersKept(lex, again, w, other, k);
    twice := AddLedgerRow(lex, again, w, other, []).value;
  }

  lemma {:induction false} StillListed(once: seq<LedgerRow>, k: nat, j: nat, v: TypedValue, caption: string,
                                       q: Provenance, w: TypedValue,
                                       other: string)
    requires k < |once| && j < |once| && once[k] == Bare(v, caption) && once[j] == Bare(w, other) && v != w
    requires !LedgerRowConflict(once, w, other)
    ensures var again := once[k := Backed(v, caption, q)];
      !LedgerRowConflict(again, w, other) && Bare(w, other) in again && again[k].value != w
  {
    assert once[k := Backed(v, caption, q)][j] == Bare(w, other);
  }

  /** Applying a row without a numeric reading. */
  lemma {:induction false} RowLedger(lex: Lexicon, m: Manifest, code: string, value: TypedValue, caption: string,
                                     provenance: seq<Provenance>,
                                     rows: seq<LedgerRow>) returns (n: Manifest)
    requires code in m.properties && m.properties[code].facts.ptype == Some(value.ptype) && value.raw.None?
    requires AddLedgerRow(lex, LedgerAt(m, code).rows, value, caption, provenance) == Some(rows)
    ensures ApplyRow(lex, m, code, value, caption, provenance) == Ok(n) && LedgerAt(n, code).rows == rows
    ensures code in n.properties && n.properties[code].facts == m.properties[code].facts
  {
    n := ApplyRow(lex, m, code, value, caption, provenance).value;
  }

  /** A row supported by `q`, and then another. */
  function ApplyTwo(lex: Lexicon, m: Manifest, code: string, v: TypedValue, caption: string, q: Provenance,
                    w: TypedValue, other: string)
    : Result<Manifest, ReviewError>
  {
    match ApplyRow(lex, m, code, v, caption, [q])
    case Err(e) => Err(e)
    case Ok(n) => ApplyRow(lex, n, code, w, other, [])
  }

  /**
   * On a ledger that lists an accepted row twice, applying the same two rows again
   * succeeds and changes the manifest again.
   */
  lemma {:induction false} RepeatedRowChangesAgain(lex: Lexicon, m: Manifest, code: string, v: TypedValue,
                                                   caption: string, q: Provenance,
                                                   w: TypedValue, other: string) returns (y: Manifest, z: Manifest)
    requires lex.codec.Faithful() && v != w && v.raw.None? && w.raw.None? && FallsBehind(lex, v, caption, q)
    requires code in m.properties && m.properties[code].facts.ptype == Some(v.ptype) == Some(w.ptype)
    requires LedgerAt(m, code).rows == [Bare(v, caption), Bare(v, caption)]
    ensures ApplyTwo(lex, m, code, v, caption, q, w, other) == Ok(y)
            && ApplyTwo(lex, y, code, v, caption, q, w, other) == Ok(z)
    ensures z != y
  {
    var first, once := ListedOnce(lex, LedgerAt(m, code).rows, v, caption, q, w, other);
    var n := RowLedger(lex, m, code, v, caption, [q], first);
    y := RowLedger(lex, n, code, w, other, [], once);
    var again, twice := ListedTwice(lex, once, v, caption, q, w, other);
    var o := RowLedger(lex, y, code, v, caption, [q], again);
    z := RowLedger(lex, o, code, w, other, [], twice);
  }
}

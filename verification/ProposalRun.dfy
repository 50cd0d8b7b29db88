// The loops that build a proposal and check one, proved against their specifications.
module ProposalRun {
  import opened Options
  import opened Observation
  import opened Ordering
  import opened Sorting
  import opened Bags
  import opened Validation
  import opened ValidationRun
  import opened Proposal
  import opened ProposalIntegrity

  // ----- building -----

  method AggregateRecords(codec: Codec, records: seq<Observation>)
    returns (named: seq<Candidate>, operations: map<Key, OperationAggregate>, properties: map<Key, PropertyAggregate>)
    ensures named == Flat(Map(records, RecordMaker(codec)))
    ensures operations == Operations(records) && properties == Properties(records)
  {
    named, operations, properties := [], map[], map[];
    for i := 0 to |records|
      invariant named == Flat(Map(records[..i], RecordMaker(codec)))
      invariant operations == Operations(records[..i]) && properties == Properties(records[..i])
    {
      assert records[..i + 1][..i] == records[..i];
      assert Map(records[..i + 1], RecordMaker(codec))[..i] == Map(records[..i], RecordMaker(codec));
      named := named + RecordCandidates(codec, records[i]);
      operations := AddOperation(operations, records[i]);
      properties := AddProperty(properties, records[i]);
    }
    assert records[..|records|] == records;
  }

  /** Push everything `make` makes of each element, in order. */
  method PushEach<A, B>(s: seq<A>, make: A -> seq<B>) returns (r: seq<B>)
    ensures r == Flat(Map(s, make))
  {
    r := [];
    for i := 0 to |s|
      invariant r == Flat(Map(s[..i], make))
    {
      assert Map(s[..i + 1], make)[..i] == Map(s[..i], make);
      r := r + make(s[i]);
    }
    assert s[..|s|] == s;
  }

  method ConsolidateCandidates(codec: Codec, cs: seq<Candidate>) returns (r: seq<Candidate>)
    ensures r == Consolidate(codec, cs)
  {
    var pooled: map<string, Candidate> := map[];
    for i := 0 to |cs|
      invariant pooled == Pooled(codec, cs[..i])
    {
      assert cs[..i + 1][..i] == cs[..i];
      pooled := PoolInto(codec, pooled, cs[i]);
    }
    assert cs[..|cs|] == cs;
    r := InIdOrder(pooled);
  }

  method BuildProposal(codec: Codec, rules: Rules, bundles: seq<seq<RawLine>>) returns (r: Result<Proposal, Report>)
    ensures r == Propose(codec, rules, bundles)
  {
    var validated := ValidateBundles(rules, bundles);
    match validated
    case Err(report) => r := Err(report);
    case Ok(v) =>
      var cs := IdentityCandidates(codec, v.headers);
      var named, operations, properties := AggregateRecords(codec, v.records);
      var listed := PushEach(Keys(properties), PropertyMaker(codec, properties));
      cs := cs + named + Map(Keys(operations), OperationMaker(codec, operations)) + listed;
      cs := ConsolidateCandidates(codec, cs);
      var ds := Map(v.report.dispositions, Linker(cs));
      r := Ok(Proposal(PROPOSAL_SCHEMA, OBSERVATION_SCHEMA, cs, ds, codec.digest(cs, ds)));
  }

  // ----- checking -----

  method StrictlyAscending(s: seq<string>) returns (ok: bool)
    ensures ok <==> Strict(s, StrLe)
  {
    StrOrder();
    if s == [] { return true; }
    for i := 1 to |s|
      invariant Strict(s[..i], StrLe)
    {
      if !StrLe(s[i - 1], s[i]) || s[i - 1] == s[i] { return false; }
      assert s[..i][i - 1] == s[i - 1];
      forall j | 0 <= j < i ensures StrLe(s[j], s[i]) && s[j] != s[i] {
        assert s[..i][j] == s[j];
      }
      assert s[..i + 1] == s[..i] + [s[i]];
    }
    assert s[..|s|] == s;
    return true;
  }

  ghost predicate Indexes<V(!new)>(m: map<string, V>, s: seq<V>, key: V -> string) {
    && (forall k :: k in m ==> m[k] in s && key(m[k]) == k)
    && (forall v :: v in s ==> key(v) in m && m[key(v)] == v)
  }

  method IndexBy<V(!new)>(s: seq<V>, key: V -> string) returns (m: map<string, V>)
    requires forall i, j :: 0 <= i < j < |s| ==> key(s[i]) != key(s[j])
    ensures Indexes(m, s, key)
  {
    m := map[];
    for i := 0 to |s|
      invariant forall k :: k in m ==> m[k] in s && key(m[k]) == k
      invariant forall k :: k in m ==> exists j :: 0 <= j < i && m[k] == s[j]
      invariant forall j :: 0 <= j < i ==> key(s[j]) in m && m[key(s[j])] == s[j]
    {
      m := m[key(s[i]) := s[i]];
    }
  }

  /** Provenance and scopes equal their own sorted, deduplicated copies. */
  method Normalized(codec: Codec, c: Candidate) returns (ok: bool)
    requires codec.Faithful()
    ensures ok <==> Strict(c.provenance, codec.ProvenanceLe()) && Strict(c.observedScopes, ContextLe)
  {
    var provenance := SortDedup(c.provenance, codec.ProvenanceLe());
    var scopes := SortDedup(c.observedScopes, ContextLe);
    NormalIffStrict(codec, c);
    return c.provenance == provenance && c.observedScopes == scopes;
  }

  lemma NormalIffStrict(codec: Codec, c: Candidate)
    requires codec.Faithful()
    ensures c.provenance == SortDedup(c.provenance, codec.ProvenanceLe())
            <==> Strict(c.provenance, codec.ProvenanceLe())
    ensures c.observedScopes == SortDedup(c.observedScopes, ContextLe) <==> Strict(c.observedScopes, ContextLe)
  {
    ProvenanceOrder(codec);
    ContextOrder();
    StrictIfNormal(c.provenance, codec.ProvenanceLe());
    StrictIfNormal(c.observedScopes, ContextLe);
  }

  lemma StrictIfNormal<T(!new)>(s: seq<T>, le: (T, T) -> bool)
    requires TotalOrder(le)
    ensures s == SortDedup(s, le) <==> Strict(s, le)
  {
    SortDedupStrict(s, le);
    if Strict(s, le) { SortDedupOfStrict(s, le); }
  }

  method CheckCandidate(codec: Codec, ds: seq<RecordDisposition>, records: map<string, RecordDisposition>, c: Candidate)
    returns (ok: bool)
    requires codec.Faithful() && Indexes(records, ds, IdentityOfRecord)
    ensures ok <==> CandidateSound(codec, ds, c)
  {
    var ascending := StrictlyAscending(c.sources);
    var normalized := Normalized(codec, c);
    if c.id != codec.id(c.assertion) || !ascending || c.sources == [] || !normalized {
      return false;
    }
    for i := 0 to |c.sources|
      invariant forall j :: 0 <= j < i ==> LinksBack(ds, c.sources[j], c.id)
    {
      ghost var s := c.sources[i];
      assert s in c.sources;
      if c.sources[i] !in records || c.id !in records[c.sources[i]].candidateIds {
        assert !LinksBack(ds, s, c.id) by { NotLinkedBack(ds, records, s, c.id); }
        return false;
      }
      assert records[s] in ds;
    }
    return true;
  }

  lemma NotLinkedBack(ds: seq<RecordDisposition>, records: map<string, RecordDisposition>, s: string, id: string)
    requires Indexes(records, ds, IdentityOfRecord) && (s !in records || id !in records[s].candidateIds)
    ensures !LinksBack(ds, s, id)
  {
    assert forall d :: d in ds ==> IdentityOfRecord(d) == d.identity;
  }

  method CheckRecord(cs: seq<Candidate>, candidates: map<string, Candidate>, d: RecordDisposition) returns (ok: bool)
    requires Indexes(candidates, cs, IdOf)
    ensures ok <==> RecordSound(cs, d)
  {
    var ascending := StrictlyAscending(d.candidateIds);
    if !ascending || (d.status == Proposed) != (d.candidateIds != []) { return false; }
    for i := 0 to |d.candidateIds|
      invariant forall j :: 0 <= j < i ==> LinksForward(cs, d.candidateIds[j], d.identity)
    {
      ghost var id := d.candidateIds[i];
      assert id in d.candidateIds;
      if d.candidateIds[i] !in candidates || d.identity !in candidates[d.candidateIds[i]].sources {
        assert !LinksForward(cs, id, d.identity) by { NotLinkedForward(cs, candidates, id, d.identity); }
        return false;
      }
      assert candidates[id] in cs;
    }
    return true;
  }

  lemma NotLinkedForward(cs: seq<Candidate>, candidates: map<string, Candidate>, id: string, identity: string)
    requires Indexes(candidates, cs, IdOf) && (id !in candidates || identity !in candidates[id].sources)
    ensures !LinksForward(cs, id, identity)
  {
    assert forall c :: c in cs ==> IdOf(c) == c.id;
  }

  method CheckCandidates(codec: Codec, ds: seq<RecordDisposition>, records: map<string, RecordDisposition>,
                         cs: seq<Candidate>)
    returns (ok: bool)
    requires codec.Faithful() && Indexes(records, ds, IdentityOfRecord)
    ensures ok <==> forall i :: 0 <= i < |cs| ==> CandidateSound(codec, ds, cs[i])
  {
    for i := 0 to |cs|
      invariant forall j :: 0 <= j < i ==> CandidateSound(codec, ds, cs[j])
    {
      var sound := CheckCandidate(codec, ds, records, cs[i]);
      if !sound { return false; }
    }
    return true;
  }

  method CheckRecords(cs: seq<Candidate>, candidates: map<string, Candidate>, ds: seq<RecordDisposition>)
    returns (ok: bool)
    requires Indexes(candidates, cs, IdOf)
    ensures ok <==> forall i :: 0 <= i < |ds| ==> RecordSound(cs, ds[i])
  {
    for i := 0 to |ds|
      invariant forall j :: 0 <= j < i ==> RecordSound(cs, ds[j])
    {
      var sound := CheckRecord(cs, candidates, ds[i]);
      if !sound { return false; }
    }
    return true;
  }

  method CheckIntegrity(codec: Codec, p: Proposal) returns (ok: bool)
    requires codec.Faithful()
    ensures ok <==> Integrity(codec, p)
  {
    if p.schema != PROPOSAL_SCHEMA || p.observationSchema != OBSERVATION_SCHEMA { return false; }
    var ascendingIds := StrictlyAscending(Map(p.candidates, IdOf));
    if !ascendingIds { return false; }
    var ascendingNames := StrictlyAscending(Map(p.dispositions, IdentityOfRecord));
    if !ascendingNames { return false; }
    DistinctKeys(p.candidates, IdOf);
    DistinctKeys(p.dispositions, IdentityOfRecord);
    var candidates := IndexBy(p.candidates, IdOf);
    var records := IndexBy(p.dispositions, IdentityOfRecord);
    var soundCandidates := CheckCandidates(codec, p.dispositions, records, p.candidates);
    if !soundCandidates { return false; }
    var soundRecords := CheckRecords(p.candidates, candidates, p.dispositions);
    if !soundRecords { return false; }
    return p.digest == codec.digest(p.candidates, p.dispositions);
  }

  lemma DistinctKeys<T>(s: seq<T>, key: T -> string)
    requires Strict(Map(s, key), StrLe)
    ensures forall i, j :: 0 <= i < j < |s| ==> key(s[i]) != key(s[j])
  {
    var keys := Map(s, key);
    forall i, j | 0 <= i < j < |s| ensures key(s[i]) != key(s[j]) {
      assert keys[i] == key(s[i]) && keys[j] == key(s[j]);
    }
  }
}

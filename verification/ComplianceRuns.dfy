/**
 `generate_compliance_records` under concurrency: each call reads the FEMA record, then the GST
 record, then writes what it found missing in one transaction. `escrow_id` is unique in both tables.
 */
module ComplianceRuns {
  import opened Prelude
  import opened AuditLog
  import opened ComplianceAmounts

  datatype Phase =
    | Started
    | ReadFema(fema: Option<FemaRecord>)
    | ReadBoth(fema: Option<FemaRecord>, gst: Option<GstRecord>)
    | Returned(femaRecord: FemaRecord, gstRecord: GstRecord)
    | Failed

  datatype Call = Call(req: Request, phase: Phase)

  datatype State = State(femas: map<Uuid, FemaRecord>, gsts: map<Uuid, GstRecord>, calls: map<nat, Call>)

  datatype Action =
    | BeginCall(c: nat, req: Request)
    | GetFema(c: nat)
    | GetGst(c: nat)
    | Save(c: nat)
    | Crash(c: nat)

  const Empty := State(map[], map[], map[])

  /** What a call would write for its request, or why it cannot. */
  type Generator = Request -> Result<(FemaRecord, GstRecord), AmountError>

  /** The service's own generator. */
  function Generate(req: Request): Result<(FemaRecord, GstRecord), AmountError> {
    match FemaFor(req)
    case Err(error) => Err(error)
    case Ok(f) =>
      match GstFor(req)
      case Err(error) => Err(error)
      case Ok(g) => Ok((f, g))
  }

  function Lookup<V>(m: map<Uuid, V>, e: Uuid): Option<V> {
    if e in m then Some(m[e]) else None
  }

  function SetPhase(s: State, c: nat, p: Phase): State
    requires c in s.calls
  {
    s.(calls := s.calls[c := s.calls[c].(phase := p)])
  }

  /** One transaction: insert what was not found; any repeated escrow_id undoes the whole. */
  function SaveRecords(s: State, c: nat, f: FemaRecord, g: GstRecord): State
    requires c in s.calls && s.calls[c].phase.ReadBoth?
  {
    var e := s.calls[c].req.escrowId;
    var writeFema, writeGst := s.calls[c].phase.fema == None, s.calls[c].phase.gst == None;
    if (writeFema && e in s.femas) || (writeGst && e in s.gsts) then SetPhase(s, c, Failed)
    else
      SetPhase(s, c, Returned(f, g)).(
        femas := if writeFema then s.femas[e := f] else s.femas,
        gsts := if writeGst then s.gsts[e := g] else s.gsts)
  }

  function Step(gen: Generator, s: State, a: Action): State {
    match a
    case BeginCall(c, req) => if c in s.calls then s else s.(calls := s.calls[c := Call(req, Started)])
    case GetFema(c) =>
      if c in s.calls && s.calls[c].phase.Started?
      then SetPhase(s, c, ReadFema(Lookup(s.femas, s.calls[c].req.escrowId))) else s
    case GetGst(c) =>
      if c in s.calls && s.calls[c].phase.ReadFema?
      then SetPhase(s, c, ReadBoth(s.calls[c].phase.fema, Lookup(s.gsts, s.calls[c].req.escrowId))) else s
    case Save(c) =>
      if !(c in s.calls && s.calls[c].phase.ReadBoth?) then s
      else
        var call := s.calls[c];
        if call.phase.fema.Some? && call.phase.gst.Some?
        then SetPhase(s, c, Returned(call.phase.fema.value, call.phase.gst.value))
        else if gen(call.req).Err? then SetPhase(s, c, Failed)
        else SaveRecords(s, c, gen(call.req).value.0, gen(call.req).value.1)
    case Crash(c) =>
      if c in s.calls && !s.calls[c].phase.Returned? then SetPhase(s, c, Failed) else s
  }

  function Run(gen: Generator, s: State, run: seq<Action>): State
    decreases |run|
  {
    if run == [] then s else Run(gen, Step(gen, s, run[0]), run[1..])
  }

  // ---------------------------------------------------------------------------------------------
  // Invariant
  // ---------------------------------------------------------------------------------------------

  /** Both stored records of `e` come from this request. */
  ghost predicate CameFrom(gen: Generator, s: State, e: Uuid, req: Request)
    requires e in s.femas && e in s.gsts
  {
    req.escrowId == e && Yields(gen, req, s.femas[e], s.gsts[e])
  }

  ghost predicate Yields(gen: Generator, req: Request, f: FemaRecord, g: GstRecord) {
    gen(req) == Ok((f, g))
  }

  ghost predicate Paired(gen: Generator, s: State, e: Uuid)
    requires e in s.femas && e in s.gsts
  {
    exists c :: c in s.calls && CameFrom(gen, s, e, s.calls[c].req)
  }

  /** What a call has seen is still there, and a call never sees a FEMA record without its GST record. */
  ghost predicate CallOk(s: State, c: nat)
    requires c in s.calls
  {
    var e := s.calls[c].req.escrowId;
    match s.calls[c].phase
    case ReadFema(f) => f.Some? ==> Lookup(s.femas, e) == f
    case ReadBoth(f, g) =>
      && (f.Some? ==> Lookup(s.femas, e) == f && g.Some?)
      && (g.Some? ==> Lookup(s.gsts, e) == g)
    case Returned(f, g) => Lookup(s.femas, e) == Some(f) && Lookup(s.gsts, e) == Some(g)
    case _ => true
  }

  ghost predicate Inv(gen: Generator, s: State) {
    && s.femas.Keys == s.gsts.Keys
    && (forall e :: e in s.femas ==> Paired(gen, s, e))
    && (forall c :: c in s.calls ==> CallOk(s, c))
  }

  /** Records are never replaced or removed, and calls keep their requests. */
  ghost predicate Grows(s: State, s': State) {
    && (forall e :: e in s.femas ==> e in s'.femas && s'.femas[e] == s.femas[e])
    && (forall e :: e in s.gsts ==> e in s'.gsts && s'.gsts[e] == s.gsts[e])
    && (forall c :: c in s.calls ==> c in s'.calls && s'.calls[c].req == s.calls[c].req)
  }

  lemma GrowingKeepsPaired(gen: Generator, s: State, s': State, e: Uuid)
    requires Grows(s, s') && e in s.femas && e in s.gsts && Paired(gen, s, e)
    ensures Paired(gen, s', e)
  {
    var c :| c in s.calls && CameFrom(gen, s, e, s.calls[c].req);
    assert CameFrom(gen, s', e, s'.calls[c].req);
  }

  /** Records that only grow leave every call as sound as it was. */
  lemma GrowingKeepsCall(s: State, s': State, c: nat)
    requires Grows(s, s') && c in s.calls && CallOk(s, c)
    requires s'.calls[c] == s.calls[c]
    ensures CallOk(s', c)
  {
  }

  /** One call moved on, and records only grew. */
  ghost predicate Moved(gen: Generator, s: State, s': State, c: nat) {
    && Grows(s, s') && s'.femas.Keys == s'.gsts.Keys
    && c in s'.calls && CallOk(s', c) && s'.calls.Keys == s.calls.Keys + {c}
    && (forall d :: d in s.calls && d != c ==> s'.calls[d] == s.calls[d])
    && (forall e :: e in s'.femas && e !in s.femas ==> Paired(gen, s', e))
  }

  lemma MoveKeepsInv(gen: Generator, s: State, s': State, c: nat)
    requires Inv(gen, s) && Moved(gen, s, s', c)
    ensures Inv(gen, s')
  {
    forall e | e in s'.femas
      ensures Paired(gen, s', e)
    {
      if e in s.femas {
        GrowingKeepsPaired(gen, s, s', e);
      }
    }
    forall d | d in s'.calls
      ensures CallOk(s', d)
    {
      if d != c {
        GrowingKeepsCall(s, s', d);
      }
    }
  }

  lemma PhaseMoves(gen: Generator, s: State, c: nat, p: Phase)
    requires s.femas.Keys == s.gsts.Keys && c in s.calls && CallOk(SetPhase(s, c, p), c)
    ensures Moved(gen, s, SetPhase(s, c, p), c)
  {
    var s' := SetPhase(s, c, p);
    assert s'.calls == s.calls[c := Call(s.calls[c].req, p)] && s'.femas == s.femas && s'.gsts == s.gsts;
  }

  lemma PhaseKeepsInv(gen: Generator, s: State, c: nat, p: Phase)
    requires Inv(gen, s) && c in s.calls && CallOk(SetPhase(s, c, p), c)
    ensures Inv(gen, SetPhase(s, c, p)) && Grows(s, SetPhase(s, c, p))
  {
    PhaseMoves(gen, s, c, p);
    MoveKeepsInv(gen, s, SetPhase(s, c, p), c);
  }

  /** Writing a request's two records for an escrow that has none. */
  lemma WriteKeepsInv(gen: Generator, s: State, c: nat, f: FemaRecord, g: GstRecord)
    requires Inv(gen, s) && c in s.calls && Yields(gen, s.calls[c].req, f, g)
    requires s.calls[c].req.escrowId !in s.femas
    ensures var e := s.calls[c].req.escrowId;
      var s' := SetPhase(s, c, Returned(f, g)).(femas := s.femas[e := f], gsts := s.gsts[e := g]);
      Inv(gen, s') && Grows(s, s')
  {
    var e := s.calls[c].req.escrowId;
    var s' := SetPhase(s, c, Returned(f, g)).(femas := s.femas[e := f], gsts := s.gsts[e := g]);
    assert s'.calls == s.calls[c := Call(s.calls[c].req, Returned(f, g))];
    assert Grows(s, s');
    assert CameFrom(gen, s', e, s'.calls[c].req);
    assert CallOk(s', c);
    MoveKeepsInv(gen, s, s', c);
  }

  lemma SaveKeepsInv(gen: Generator, s: State, c: nat)
    requires Inv(gen, s) && c in s.calls && s.calls[c].phase.ReadBoth?
    ensures Inv(gen, Step(gen, s, Save(c))) && Grows(s, Step(gen, s, Save(c)))
  {
    var call := s.calls[c];
    var e := call.req.escrowId;
    assert CallOk(s, c);
    PhaseKeepsInv(gen, s, c, Failed);
    if call.phase.fema.Some? {
      PhaseKeepsInv(gen, s, c, Returned(call.phase.fema.value, call.phase.gst.value));
    } else if e !in s.femas && gen(call.req).Ok? {
      WriteKeepsInv(gen, s, c, gen(call.req).value.0, gen(call.req).value.1);
    }
  }

  lemma StepKeepsInv(gen: Generator, s: State, a: Action)
    requires Inv(gen, s)
    ensures Inv(gen, Step(gen, s, a)) && Grows(s, Step(gen, s, a))
  {
    match a
    case BeginCall(c, req) =>
      if c !in s.calls {
        BeginKeepsInv(gen, s, c, req);
      }
    case GetFema(c) =>
      if c in s.calls && s.calls[c].phase.Started? {
        PhaseKeepsInv(gen, s, c, ReadFema(Lookup(s.femas, s.calls[c].req.escrowId)));
      }
    case GetGst(c) =>
      if c in s.calls && s.calls[c].phase.ReadFema? {
        assert CallOk(s, c);
        PhaseKeepsInv(gen, s, c, ReadBoth(s.calls[c].phase.fema, Lookup(s.gsts, s.calls[c].req.escrowId)));
      }
    case Save(c) =>
      if c in s.calls && s.calls[c].phase.ReadBoth? {
        SaveKeepsInv(gen, s, c);
      }
    case Crash(c) =>
      if c in s.calls {
        PhaseKeepsInv(gen, s, c, Failed);
      }
  }

  lemma BeginKeepsInv(gen: Generator, s: State, c: nat, req: Request)
    requires Inv(gen, s) && c !in s.calls
    ensures var s' := s.(calls := s.calls[c := Call(req, Started)]); Inv(gen, s') && Grows(s, s')
  {
    MoveKeepsInv(gen, s, s.(calls := s.calls[c := Call(req, Started)]), c);
  }

  lemma {:induction false} RunKeepsInv(gen: Generator, s: State, run: seq<Action>)
    requires Inv(gen, s)
    ensures Inv(gen, Run(gen, s, run)) && Grows(s, Run(gen, s, run))
    decreases |run|
  {
    if run != [] {
      StepKeepsInv(gen, s, run[0]);
      RunKeepsInv(gen, Step(gen, s, run[0]), run[1..]);
    }
  }

  /** The two records of one request. */
  lemma GeneratedPair(req: Request, f: FemaRecord, g: GstRecord)
    requires Yields(Generate, req, f, g)
    ensures RecordsOf(req, f, g)
  {
    SameAmountOnBothRecords(req);
  }

  /** A call that has returned has returned the stored pair. */
  ghost predicate ReturnsStored(s: State) {
    forall c :: c in s.calls && s.calls[c].phase.Returned? ==>
      && Lookup(s.femas, s.calls[c].req.escrowId) == Some(s.calls[c].phase.femaRecord)
      && Lookup(s.gsts, s.calls[c].req.escrowId) == Some(s.calls[c].phase.gstRecord)
  }

  /** Both records of the escrow are those of one call's request. */
  ghost predicate PairOfOneRequest(s: State, e: Uuid)
    requires e in s.femas && e in s.gsts
  {
    exists c :: c in s.calls && s.calls[c].req.escrowId == e && RecordsOf(s.calls[c].req, s.femas[e], s.gsts[e])
  }

  lemma InvPairs(s: State, e: Uuid)
    requires Inv(Generate, s) && e in s.femas
    ensures PairOfOneRequest(s, e)
  {
    var c :| c in s.calls && CameFrom(Generate, s, e, s.calls[c].req);
    GeneratedPair(s.calls[c].req, s.femas[e], s.gsts[e]);
  }

  lemma InvReturnsStored(gen: Generator, s: State)
    requires Inv(gen, s)
    ensures ReturnsStored(s)
  {
    forall c | c in s.calls && s.calls[c].phase.Returned?
      ensures Lookup(s.femas, s.calls[c].req.escrowId) == Some(s.calls[c].phase.femaRecord)
      ensures Lookup(s.gsts, s.calls[c].req.escrowId) == Some(s.calls[c].phase.gstRecord)
    {
      assert CallOk(s, c);
    }
  }

  /**
   In every interleaving of calls and crashes an escrow has a FEMA record exactly when it has a GST
   record, both the records of one and the same request, and nothing that follows replaces them. A call
   that returns has returned the stored pair.
   */
  lemma EveryRunPairsRecords(run: seq<Action>, later: seq<Action>, e: Uuid)
    ensures var s, s' := Run(Generate, Empty, run), Run(Generate, Run(Generate, Empty, run), later);
      && (e in s.femas <==> e in s.gsts)
      && (e in s.femas ==>
            && PairOfOneRequest(s, e)
            && Lookup(s'.femas, e) == Some(s.femas[e])
            && Lookup(s'.gsts, e) == Some(s.gsts[e]))
      && ReturnsStored(s)
  {
    var s := Run(Generate, Empty, run);
    RunKeepsInv(Generate, Empty, run);
    RunKeepsInv(Generate, s, later);
    InvReturnsStored(Generate, s);
    if e in s.femas {
      InvPairs(s, e);
    }
  }

  // ---------------------------------------------------------------------------------------------
  // A call that nobody disturbs
  // ---------------------------------------------------------------------------------------------

  function Alone(c: nat, req: Request): seq<Action> {
    [BeginCall(c, req), GetFema(c), GetGst(c), Save(c)]
  }

  lemma AloneSteps(gen: Generator, s: State, c: nat, req: Request)
    requires c !in s.calls
    ensures var looked := s.(calls := s.calls[c :=
        Call(req, ReadBoth(Lookup(s.femas, req.escrowId), Lookup(s.gsts, req.escrowId)))]);
      Run(gen, s, Alone(c, req)) == Step(gen, looked, Save(c))
  {
    var r := Alone(c, req);
    var s1 := Step(gen, s, r[0]);
    var s2 := Step(gen, s1, r[1]);
    var s3 := Step(gen, s2, r[2]);
    assert Run(gen, s, r) == Run(gen, s1, r[1..]);
    assert Run(gen, s1, r[1..]) == Run(gen, s2, r[2..]);
    assert Run(gen, s2, r[2..]) == Run(gen, s3, r[3..]);
    assert Run(gen, s3, r[3..]) == Run(gen, Step(gen, s3, r[3]), r[4..]);
    assert s3.calls == s.calls[c := Call(req, ReadBoth(Lookup(s.femas, req.escrowId), Lookup(s.gsts, req.escrowId)))];
  }

  /** What a call has come to once it has looked and saved with nobody in between. */
  ghost predicate Settled(gen: Generator, s: State, s': State, c: nat, req: Request) {
    && c in s'.calls
    && (req.escrowId in s.femas && req.escrowId in s.gsts ==>
          s'.femas == s.femas && s'.gsts == s.gsts
          && s'.calls[c].phase == Returned(s.femas[req.escrowId], s.gsts[req.escrowId]))
    && (req.escrowId !in s.femas && req.escrowId !in s.gsts && gen(req).Ok? ==>
          s'.femas == s.femas[req.escrowId := gen(req).value.0] && s'.gsts == s.gsts[req.escrowId := gen(req).value.1]
          && s'.calls[c].phase == Returned(gen(req).value.0, gen(req).value.1))
    && (req.escrowId !in s.femas && req.escrowId !in s.gsts && gen(req).Err? ==>
          s'.femas == s.femas && s'.gsts == s.gsts && s'.calls[c].phase == Failed)
  }

  lemma AloneSettles(gen: Generator, s: State, c: nat, req: Request)
    requires c !in s.calls
    ensures Settled(gen, s, Run(gen, s, Alone(c, req)), c, req)
  {
    AloneSteps(gen, s, c, req);
  }

  /**
   After any run, a call that nobody disturbs returns the pair the escrow has, or stores and returns the
   records of its own request; it fails exactly on an amount that rounds below zero.
   */
  lemma UndisturbedCallReturns(run: seq<Action>, c: nat, req: Request)
    requires c !in Run(Generate, Empty, run).calls
    ensures var s := Run(Generate, Empty, run);
      var s' := Run(Generate, s, Alone(c, req));
      && c in s'.calls
      && (req.escrowId in s.femas ==> s'.femas == s.femas && s'.gsts == s.gsts && s'.calls[c].phase.Returned?)
      && (req.escrowId !in s.femas && Recordable(req) ==>
            && s'.calls[c].phase.Returned?
            && RecordsOf(req, s'.calls[c].phase.femaRecord, s'.calls[c].phase.gstRecord)
            && s'.femas == s.femas[req.escrowId := s'.calls[c].phase.femaRecord]
            && s'.gsts == s.gsts[req.escrowId := s'.calls[c].phase.gstRecord])
      && (req.escrowId !in s.femas && !Recordable(req) ==>
            s'.femas == s.femas && s'.gsts == s.gsts && s'.calls[c].phase == Failed)
  {
    RunKeepsInv(Generate, Empty, run);
    AloneSettles(Generate, Run(Generate, Empty, run), c, req);
    SameAmountOnBothRecords(req);
  }

  // ---------------------------------------------------------------------------------------------
  // The service call
  // ---------------------------------------------------------------------------------------------

  class ComplianceStore {
    var femas: map<Uuid, FemaRecord>
    var gsts: map<Uuid, GstRecord>

    /** One undisturbed call: it returns the stored pair if there is one and stores one if it can. */
    method GenerateComplianceRecords(req: Request) returns (r: Result<(FemaRecord, GstRecord), AmountError>)
      requires femas.Keys == gsts.Keys
      modifies this
      ensures femas.Keys == gsts.Keys
      ensures r.Ok? ==>
        && femas == old(femas)[req.escrowId := r.value.0]
        && gsts == old(gsts)[req.escrowId := r.value.1]
      ensures r.Err? ==> femas == old(femas) && gsts == old(gsts)
      ensures req.escrowId in old(femas) ==>
        && femas == old(femas) && gsts == old(gsts)
        && r == Ok((femas[req.escrowId], gsts[req.escrowId]))
      ensures req.escrowId !in old(femas) && r.Ok? ==> RecordsOf(req, r.value.0, r.value.1)
      ensures r.Ok? <==> req.escrowId in old(femas) || Recordable(req)
    {
      var existingFema := Lookup(femas, req.escrowId);
      var existingGst := Lookup(gsts, req.escrowId);
      if existingFema.Some? && existingGst.Some? {
        return Ok((existingFema.value, existingGst.value));
      }
      SameAmountOnBothRecords(req);
      var fema := FemaFor(req);
      if fema.Err? {
        return Err(fema.error);
      }
      var gst := GstFor(req);
      if existingFema == None {
        femas := femas[req.escrowId := fema.value];
      }
      if existingGst == None {
        gsts := gsts[req.escrowId := gst.value];
      }
      return Ok((fema.value, gst.value));
    }
  }
}

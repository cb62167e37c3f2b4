/** The enterprise aggregate's mutations, and whole runs of loading, changing and saving it. */
module EnterpriseRuns {
  import opened Prelude
  import opened CanonicalJson
  import opened EnterpriseStore

  datatype ConfigError = BadAmount | MinAboveMax | NotAList

  /** A profile after an update, which may have raised half way. */
  datatype Update = Update(profile: Profile, raised: Option<ConfigError>)

  predicate InOrder(p: Profile) {
    p.minOrder.Some? && p.maxOrder.Some? ==> p.minOrder.value <= p.maxOrder.value
  }

  function SetMin(c: Conversions, p: Profile, v: Json): Update {
    if v == Null then Update(p, None)
    else if c.amount(v).None? then Update(p, Some(BadAmount))
    else Update(p.(minOrder := c.amount(v)), None)
  }

  function SetMax(c: Conversions, p: Profile, v: Json): Update {
    if v == Null then Update(p, None)
    else if c.amount(v).None? then Update(p, Some(BadAmount))
    else Update(p.(maxOrder := c.amount(v)), None)
  }

  function SetDescriptions(c: Conversions, p: Profile, config: Document): Update {
    var p1 := if "industry_vertical" in config then p.(industryVertical := config["industry_vertical"]) else p;
    if "commodities" in config && Listed(config["commodities"]).None? then Update(p1, Some(NotAList))
    else
      var p2 := if "commodities" in config then p1.(commodities := Listed(config["commodities"]).value) else p1;
      Update(if "geography" in config then p2.(geography := Str(c.show(config["geography"]))) else p2, None)
  }

  /** `update_agent_config`: both amounts are assigned before they are compared. */
  function Configured(c: Conversions, p: Profile, config: Document): Update {
    var low := SetMin(c, p, Get(Some(config), "min_order_value"));
    if low.raised.Some? then low
    else
      var high := SetMax(c, low.profile, Get(Some(config), "max_order_value"));
      if high.raised.Some? then high
      else if !InOrder(high.profile) then Update(high.profile, Some(MinAboveMax))
      else SetDescriptions(c, high.profile, config)
  }

  // ---------------------------------------------------------------------------------------------
  // What an update does, read off the configuration
  // ---------------------------------------------------------------------------------------------

  /** The update names the field; an amount given as None counts as not given. */
  predicate Mentions(config: Document, f: Field) {
    Key(f) in config && (f.MinOrder? || f.MaxOrder? ==> config[Key(f)] != Null)
  }

  /** The field holds the value that the configuration gives it. */
  predicate Takes(c: Conversions, config: Document, q: Profile, f: Field)
    requires Key(f) in config
  {
    match f
    case Industry => q.industryVertical == config["industry_vertical"]
    case Geography => q.geography == Str(c.show(config["geography"]))
    case Commodities => Listed(config["commodities"]) == Some(q.commodities)
    case MinOrder => q.minOrder.Some? && q.minOrder == c.amount(config["min_order_value"])
    case MaxOrder => q.maxOrder.Some? && q.maxOrder == c.amount(config["max_order_value"])
  }

  predicate Keeps(p: Profile, q: Profile, f: Field) {
    match f
    case Industry => q.industryVertical == p.industryVertical
    case Geography => q.geography == p.geography
    case Commodities => q.commodities == p.commodities
    case MinOrder => q.minOrder == p.minOrder
    case MaxOrder => q.maxOrder == p.maxOrder
  }

  /** Fields are assigned in this order. */
  function Position(f: Field): nat {
    match f
    case MinOrder => 0
    case MaxOrder => 1
    case Industry => 2
    case Commodities => 3
    case Geography => 4
  }

  predicate GivesBad<T>(config: Document, f: Field, convert: Json -> Option<T>) {
    Mentions(config, f) && convert(config[Key(f)]).None?
  }

  /** An amount once it is assigned. */
  function Amount(c: Conversions, config: Document, f: Field, before: Option<real>): Option<real> {
    if Mentions(config, f) then c.amount(config[Key(f)]) else before
  }

  /** How many of the fields an update gets to, and why it stops. */
  function Stop(c: Conversions, p: Profile, config: Document): (nat, Option<ConfigError>) {
    var low := Amount(c, config, MinOrder, p.minOrder);
    var high := Amount(c, config, MaxOrder, p.maxOrder);
    if GivesBad(config, MinOrder, c.amount) then (0, Some(BadAmount))
    else if GivesBad(config, MaxOrder, c.amount) then (1, Some(BadAmount))
    else if low.Some? && high.Some? && low.value > high.value then (2, Some(MinAboveMax))
    else if GivesBad(config, Commodities, Listed) then (3, Some(NotAList))
    else (5, None)
  }

  predicate Reached(c: Conversions, p: Profile, config: Document, f: Field) {
    Position(f) < Stop(c, p, config).0
  }

  /** Every field that is named and reached takes the value given for it; every other keeps its own. */
  ghost predicate Updated(c: Conversions, p: Profile, config: Document, q: Profile) {
    forall f: Field ::
      if Reached(c, p, config, f) && Mentions(config, f) then Takes(c, config, q, f) else Keeps(p, q, f)
  }

  lemma AmountsAssigned(c: Conversions, p: Profile, config: Document)
    ensures var low := SetMin(c, p, Get(Some(config), "min_order_value"));
      && (low.raised == if GivesBad(config, MinOrder, c.amount) then Some(BadAmount) else None)
      && low.profile == (if low.raised.Some? then p else p.(minOrder := Amount(c, config, MinOrder, p.minOrder)))
    ensures var high := SetMax(c, p, Get(Some(config), "max_order_value"));
      && (high.raised == if GivesBad(config, MaxOrder, c.amount) then Some(BadAmount) else None)
      && high.profile == (if high.raised.Some? then p else p.(maxOrder := Amount(c, config, MaxOrder, p.maxOrder)))
  {
  }

  /** An update raises exactly when and where `Stop` says, and assigns exactly the named fields before that. */
  lemma ConfiguredUpdates(c: Conversions, p: Profile, config: Document)
    ensures Configured(c, p, config).raised == Stop(c, p, config).1
    ensures Updated(c, p, config, Configured(c, p, config).profile)
  {
    var low := SetMin(c, p, Get(Some(config), "min_order_value"));
    AmountsAssigned(c, p, config);
    AmountsAssigned(c, low.profile, config);
    forall f: Field
      ensures if Reached(c, p, config, f) && Mentions(config, f) then Takes(c, config, Configured(c, p, config).profile, f)
              else Keeps(p, Configured(c, p, config).profile, f)
    {
      ConfiguredField(c, p, config, f);
    }
  }

  lemma ConfiguredField(c: Conversions, p: Profile, config: Document, f: Field)
    ensures var q := Configured(c, p, config).profile;
      if Reached(c, p, config, f) && Mentions(config, f) then Takes(c, config, q, f) else Keeps(p, q, f)
  {
    var low := SetMin(c, p, Get(Some(config), "min_order_value"));
    AmountsAssigned(c, p, config);
    AmountsAssigned(c, low.profile, config);
    match f
    case MinOrder =>
    case MaxOrder =>
    case Industry =>
    case Commodities =>
    case Geography =>
  }

  /** An update is refused for its amounts exactly when it leaves the aggregate holding amounts out of order. */
  lemma RefusedAmountsStay(c: Conversions, p: Profile, config: Document)
    requires InOrder(p)
    requires Configured(c, p, config).raised != Some(BadAmount)
    ensures Configured(c, p, config).raised == Some(MinAboveMax) <==> !InOrder(Configured(c, p, config).profile)
  {
  }

  // ---------------------------------------------------------------------------------------------
  // The classes
  // ---------------------------------------------------------------------------------------------

  class Enterprise {
    var status: KycStatus
    var industryVertical: Json
    var geography: Json
    var commodities: seq<Json>
    var minOrder: Option<real>
    var maxOrder: Option<real>
    var documents: Option<Document>

    constructor (status: KycStatus, p: Profile, documents: Option<Document>)
      ensures this.status == status && Current() == p && this.documents == documents
    {
      this.status := status;
      industryVertical, geography, commodities := p.industryVertical, p.geography, p.commodities;
      minOrder, maxOrder := p.minOrder, p.maxOrder;
      this.documents := documents;
    }

    function Current(): Profile
      reads this
    {
      Profile(industryVertical, geography, commodities, minOrder, maxOrder)
    }

    method SubmitKyc(submitted: Document) returns (accepted: bool)
      modifies this`status, this`documents
      ensures accepted <==> old(status) == Pending
      ensures accepted ==> status == KycSubmitted && documents == Some(submitted)
      ensures !accepted ==> status == old(status) && documents == old(documents)
    {
      if status != Pending {
        return false;
      }
      status := KycSubmitted;
      documents := Some(submitted);
      return true;
    }

    method UpdateAgentConfig(c: Conversions, config: Document) returns (raised: Option<ConfigError>)
      modifies this`industryVertical, this`geography, this`commodities, this`minOrder, this`maxOrder
      ensures Update(Current(), raised) == Configured(c, old(Current()), config)
      ensures raised == Stop(c, old(Current()), config).1
      ensures Updated(c, old(Current()), config, Current())
    {
      ConfiguredUpdates(c, Current(), config);
      var newMin, newMax := Get(Some(config), "min_order_value"), Get(Some(config), "max_order_value");
      if newMin != Null {
        var d := c.amount(newMin);
        if d.None? {
          return Some(BadAmount);
        }
        minOrder := d;
      }
      if newMax != Null {
        var d := c.amount(newMax);
        if d.None? {
          return Some(BadAmount);
        }
        maxOrder := d;
      }
      if minOrder.Some? && maxOrder.Some? {
        if minOrder.value > maxOrder.value {
          return Some(MinAboveMax);
        }
      }
      if "industry_vertical" in config {
        industryVertical := config["industry_vertical"];
      }
      if "commodities" in config {
        var items := Listed(config["commodities"]);
        if items.None? {
          return Some(NotAList);
        }
        commodities := items.value;
      }
      if "geography" in config {
        geography := Str(c.show(config["geography"]));
      }
      return None;
    }
  }

  class EnterpriseRow {
    var status: KycStatus
    var kycDocuments: Option<Document>

    /** Overwrites the stored row with the aggregate. */
    method Overwrite(c: Conversions, e: Enterprise)
      modifies this
      ensures status == e.status && kycDocuments == Save(c, e.Current(), e.documents)
    {
      var config: Document := map[];
      if e.industryVertical != Null {
        config := config["industry_vertical" := e.industryVertical];
      }
      if Truthy(e.geography) {
        config := config["geography" := e.geography];
      }
      if e.commodities != [] {
        config := config["commodities" := Arr(e.commodities)];
      }
      if e.minOrder.Some? {
        config := config["min_order_value" := c.column(e.minOrder.value)];
      }
      if e.maxOrder.Some? {
        config := config["max_order_value" := c.column(e.maxOrder.value)];
      }
      assert config == Entries(c, e.Current());
      if e.documents.Some? && e.documents.value != map[] {
        config := e.documents.value + config;
      }
      assert config == (if e.documents.Some? then e.documents.value else map[]) + Entries(c, e.Current());
      status := e.status;
      kycDocuments := if config == map[] then None else Some(config);
    }

    /** Builds the aggregate a row describes, or reports the value that would not convert. */
    method Restore(c: Conversions) returns (r: Result<Enterprise, Json>)
      ensures Load(c, kycDocuments).Ok? <==> r.Ok?
      ensures r.Ok? ==> fresh(r.value) && r.value.Current() == Load(c, kycDocuments).value
      ensures r.Ok? ==> r.value.status == status && r.value.documents == kycDocuments
    {
      var p := Load(c, kycDocuments);
      if p.Err? {
        return Err(p.error);
      }
      var e := new Enterprise(status, p.value, kycDocuments);
      return Ok(e);
    }
  }

  // ---------------------------------------------------------------------------------------------
  // Runs
  // ---------------------------------------------------------------------------------------------

  datatype Op = LoadIt | Submit(documents: Document) | Configure(config: Document) | SaveIt

  /** The aggregate in memory and the row behind it. */
  datatype State = State(status: KycStatus, profile: Profile, documents: Option<Document>,
                         rowStatus: KycStatus, row: Option<Document>)

  function Step(c: Conversions, s: State, op: Op): State {
    match op
    case LoadIt =>
      if Load(c, s.row).Ok? then s.(status := s.rowStatus, profile := Load(c, s.row).value, documents := s.row) else s
    case Submit(documents) =>
      if s.status == Pending then s.(status := KycSubmitted, documents := Some(documents)) else s
    case Configure(config) => s.(profile := Configured(c, s.profile, config).profile)
    case SaveIt => s.(rowStatus := s.status, row := Save(c, s.profile, s.documents))
  }

  function Run(c: Conversions, s: State, ops: seq<Op>): State
    decreases |ops|
  {
    if ops == [] then s else Run(c, Step(c, s, ops[0]), ops[1..])
  }

  /** No update of the run names the field. */
  predicate Untouched(ops: seq<Op>, f: Field) {
    forall i :: 0 <= i < |ops| && ops[i].Configure? ==> !Mentions(ops[i].config, f)
  }

  lemma UnmentionedDescriptionsKept(c: Conversions, p: Profile, config: Document, f: Field)
    requires !Mentions(config, f)
    ensures Entry(c, SetDescriptions(c, p, config).profile, f) == Entry(c, p, f)
  {
  }

  lemma UnmentionedFieldKept(c: Conversions, p: Profile, config: Document, f: Field)
    requires !Mentions(config, f)
    ensures Entry(c, Configured(c, p, config).profile, f) == Entry(c, p, f)
  {
    var low := SetMin(c, p, Get(Some(config), "min_order_value"));
    UnmentionedDescriptionsKept(c, SetMax(c, low.profile, Get(Some(config), "max_order_value")).profile, config, f);
  }

  /** A non-empty field that memory and row agree on. */
  predicate Settled(c: Conversions, s: State, f: Field, entry: Json) {
    Entry(c, s.profile, f) == Some(entry) && Lookup(s.row, Key(f)) == Some(entry)
  }

  lemma {:induction false} RunKeepsSettled(c: Conversions, s: State, ops: seq<Op>, f: Field, entry: Json)
    requires Sound(c) && Settled(c, s, f, entry) && Untouched(ops, f)
    ensures Settled(c, Run(c, s, ops), f, entry)
    decreases |ops|
  {
    if ops != [] {
      var t := Step(c, s, ops[0]);
      match ops[0] {
        case LoadIt =>
          if Load(c, s.row).Ok? {
            EntryReadsBack(c, s.profile, s.row, f);
          }
        case Submit(_) =>
        case Configure(config) => UnmentionedFieldKept(c, s.profile, config, f);
        case SaveIt => SavedField(c, s.profile, s.documents, f);
      }
      assert Settled(c, t, f, entry);
      RunKeepsSettled(c, t, ops[1..], f, entry);
    }
  }

  /**
   A stored non-empty field keeps its value, in memory and as the row reads back, through every run
   whose updates leave it alone, whatever documents the run submits over it and however often it loads
   and saves.
   */
  lemma FieldSurvives(c: Conversions, s: State, ops: seq<Op>, f: Field, entry: Json)
    requires Sound(c) && Settled(c, s, f, entry) && Untouched(ops, f)
    ensures var end := Run(c, s, ops);
      && Settled(c, end, f, entry)
      && SameField(c, s.profile, end.profile, f)
      && (Load(c, end.row).Ok? ==> SameField(c, s.profile, Load(c, end.row).value, f))
  {
    RunKeepsSettled(c, s, ops, f, entry);
    var end := Run(c, s, ops);
    EntryDeterminesField(c, s.profile, end.profile, f);
    if Load(c, end.row).Ok? {
      EntryReadsBack(c, end.profile, end.row, f);
      EntryDeterminesField(c, s.profile, Load(c, end.row).value, f);
    }
  }

  /** What the value given for a field is stored as, unless it is empty. */
  function GivenEntry(c: Conversions, config: Document, f: Field): Option<Json> {
    if !Mentions(config, f) then None
    else
      var v := config[Key(f)];
      match f
      case Industry => if v != Null then Some(v) else None
      case Geography => if c.show(v) != "" then Some(Str(c.show(v))) else None
      case Commodities => if Listed(v).Some? && Listed(v).value != [] then Some(Arr(Listed(v).value)) else None
      case _ => if c.amount(v).Some? then Some(c.column(c.amount(v).value)) else None
  }

  /** The field reads as the value given for it; an amount as one stored as the same float. */
  predicate ReadsAs(c: Conversions, config: Document, q: Profile, f: Field)
    requires Key(f) in config
  {
    match f
    case MinOrder => q.minOrder.Some? && GivenEntry(c, config, f) == Some(c.column(q.minOrder.value))
    case MaxOrder => q.maxOrder.Some? && GivenEntry(c, config, f) == Some(c.column(q.maxOrder.value))
    case _ => Takes(c, config, q, f)
  }

  lemma GivenIsEntry(c: Conversions, p: Profile, config: Document, f: Field)
    requires Mentions(config, f) && Reached(c, p, config, f)
    ensures Entry(c, Configured(c, p, config).profile, f) == GivenEntry(c, config, f)
  {
    var q := Configured(c, p, config).profile;
    ConfiguredUpdates(c, p, config);
    assert Takes(c, config, q, f);
  }

  lemma EntryReadsAs(c: Conversions, config: Document, q: Profile, f: Field)
    requires Mentions(config, f) && GivenEntry(c, config, f).Some? && Entry(c, q, f) == GivenEntry(c, config, f)
    ensures ReadsAs(c, config, q, f)
  {
  }

  /** Last write wins: a field set to a non-empty value and saved is stored and read as that value ever after. */
  lemma LastWriteReadsBack(c: Conversions, s: State, config: Document, ops: seq<Op>, f: Field)
    requires Sound(c) && Untouched(ops, f)
    requires Mentions(config, f) && Reached(c, s.profile, config, f) && GivenEntry(c, config, f).Some?
    ensures
      var end := Run(c, s, [Configure(config), SaveIt] + ops);
      && Lookup(end.row, Key(f)) == GivenEntry(c, config, f)
      && ReadsAs(c, config, end.profile, f)
      && (Load(c, end.row).Ok? ==> ReadsAs(c, config, Load(c, end.row).value, f))
  {
    var all := [Configure(config), SaveIt] + ops;
    var t := Step(c, s, Configure(config));
    var u := Step(c, t, SaveIt);
    var end := Run(c, u, ops);
    var entry := GivenEntry(c, config, f).value;
    assert all[1..] == [SaveIt] + ops && ([SaveIt] + ops)[1..] == ops;
    assert Run(c, s, all) == Run(c, t, [SaveIt] + ops) == end;
    GivenIsEntry(c, s.profile, config, f);
    SavedField(c, t.profile, t.documents, f);
    RunKeepsSettled(c, u, ops, f, entry);
    EntryReadsAs(c, config, end.profile, f);
    if Load(c, end.row).Ok? {
      EntryReadsBack(c, end.profile, end.row, f);
      EntryReadsAs(c, config, Load(c, end.row).value, f);
    }
  }

  // ---------------------------------------------------------------------------------------------
  // Submitted documents
  // ---------------------------------------------------------------------------------------------

  /** Submitted once, in memory and in the row, and what both hold under a key outside the profile. */
  predicate Filed(s: State, key: string, value: Option<Json>) {
    && s.status == s.rowStatus == KycSubmitted
    && Lookup(s.documents, key) == Lookup(s.row, key) == value
  }

  lemma StepKeepsFiled(c: Conversions, s: State, op: Op, key: string, value: Option<Json>)
    requires Filed(s, key, value) && forall f :: key != Key(f)
    ensures Filed(Step(c, s, op), key, value)
  {
    OtherKeysKept(c, s.profile, s.documents, key);
  }

  lemma {:induction false} RunKeepsFiled(c: Conversions, s: State, ops: seq<Op>, key: string, value: Option<Json>)
    requires Filed(s, key, value) && forall f :: key != Key(f)
    ensures Filed(Run(c, s, ops), key, value)
    decreases |ops|
  {
    if ops != [] {
      StepKeepsFiled(c, s, ops[0], key, value);
      RunKeepsFiled(c, Step(c, s, ops[0]), ops[1..], key, value);
    }
  }

  /**
   Documents submitted while pending and saved are the documents for good: through every later run, of
   other submissions, updates, loads and saves, the row holds under each key outside the profile exactly
   what they hold, and nothing of what was there before.
   */
  lemma SubmittedDocumentsStay(c: Conversions, s: State, submitted: Document, ops: seq<Op>, key: string)
    requires s.status == Pending && forall f :: key != Key(f)
    ensures var end := Run(c, s, [Submit(submitted), SaveIt] + ops);
      && end.status == end.rowStatus == KycSubmitted
      && Lookup(end.row, key) == Lookup(Some(submitted), key)
  {
    var all := [Submit(submitted), SaveIt] + ops;
    var t := Step(c, s, Submit(submitted));
    var u := Step(c, t, SaveIt);
    assert all[1..] == [SaveIt] + ops && ([SaveIt] + ops)[1..] == ops;
    assert Run(c, s, all) == Run(c, t, [SaveIt] + ops) == Run(c, u, ops);
    OtherKeysKept(c, t.profile, t.documents, key);
    RunKeepsFiled(c, u, ops, key, Lookup(Some(submitted), key));
  }

  // ---------------------------------------------------------------------------------------------
  // The column behaves as five plain columns until a field is cleared
  // ---------------------------------------------------------------------------------------------

  /** The same store with a column of its own for every field. */
  datatype Plain = Plain(status: KycStatus, profile: Profile, rowStatus: KycStatus, stored: Profile)

  function PlainStep(c: Conversions, s: Plain, op: Op): Plain {
    match op
    case LoadIt => s.(status := s.rowStatus, profile := s.stored)
    case Submit(_) => if s.status == Pending then s.(status := KycSubmitted) else s
    case Configure(config) => s.(profile := Configured(c, s.profile, config).profile)
    case SaveIt => s.(rowStatus := s.status, stored := RoundedProfile(c, s.profile))
  }

  function PlainRun(c: Conversions, s: Plain, ops: seq<Op>): Plain
    decreases |ops|
  {
    if ops == [] then s else PlainRun(c, PlainStep(c, s, ops[0]), ops[1..])
  }

  const Blank := Profile(Null, Str("IN"), [], None, None)

  function Fresh(): State {
    State(Pending, Blank, None, Pending, None)
  }

  function PlainFresh(): Plain {
    Plain(Pending, Blank, Pending, Blank)
  }

  /** Documents keep off the five keys, and no update sets a field to an empty value. */
  predicate Tame(c: Conversions, op: Op) {
    match op
    case Submit(documents) =>
      && Key(Industry) !in documents && Key(Geography) !in documents && Key(Commodities) !in documents
      && Key(MinOrder) !in documents && Key(MaxOrder) !in documents
    case Configure(config) =>
      && (Key(Industry) in config ==> config[Key(Industry)] != Null)
      && (Key(Geography) in config ==> c.show(config[Key(Geography)]) != "")
      && (Key(Commodities) in config ==> Listed(config[Key(Commodities)]) != Some([]))
    case _ => true
  }

  /** Every entry of a document is covered by a non-empty field. */
  predicate Covered(c: Conversions, p: Profile, documents: Option<Document>) {
    && Truthy(p.geography)
    && forall f: Field :: Lookup(documents, Key(f)).Some? ==> Entry(c, p, f).Some?
  }

  predicate Related(c: Conversions, s: State, t: Plain) {
    && s.status == t.status && s.profile == t.profile && s.rowStatus == t.rowStatus
    && Load(c, s.row) == Ok(t.stored)
    && Covered(c, s.profile, s.documents)
    && Covered(c, t.stored, s.row)
  }

  lemma TameUpdateClearsNothing(c: Conversions, p: Profile, config: Document, f: Field)
    requires Tame(c, Configure(config)) && Entry(c, p, f).Some?
    ensures Entry(c, Configured(c, p, config).profile, f).Some?
  {
  }

  lemma SavedIsCovered(c: Conversions, p: Profile, documents: Option<Document>)
    requires Sound(c) && Covered(c, p, documents)
    ensures Load(c, Save(c, p, documents)) == Ok(RoundedProfile(c, p))
    ensures Covered(c, RoundedProfile(c, p), Save(c, p, documents))
    ensures Covered(c, p, Save(c, p, documents))
  {
    assert Undisturbed(p, documents) by {
      assert forall f: Field :: Entry(c, p, f).None? ==> Lookup(documents, Key(f)).None?;
      assert p.industryVertical == Null ==> Entry(c, p, Industry).None?;
      assert p.commodities == [] ==> Entry(c, p, Commodities).None?;
      assert p.minOrder.None? ==> Entry(c, p, MinOrder).None?;
      assert p.maxOrder.None? ==> Entry(c, p, MaxOrder).None?;
    }
    ReadsBackIff(c, p, documents);
    AmountsSurvive(c, p);
    forall f: Field | Lookup(Save(c, p, documents), Key(f)).Some?
      ensures Entry(c, p, f).Some? && Entry(c, RoundedProfile(c, p), f).Some?
    {
      SavedField(c, p, documents, f);
    }
  }

  lemma StepKeepsRelated(c: Conversions, s: State, t: Plain, op: Op)
    requires Sound(c) && Related(c, s, t) && Tame(c, op)
    ensures Related(c, Step(c, s, op), PlainStep(c, t, op))
  {
    match op
    case LoadIt =>
    case Submit(documents) =>
      forall f: Field
        ensures Key(f) !in documents
      {
      }
    case Configure(config) =>
      TameUpdateClearsNothing(c, s.profile, config, Geography);
      forall f: Field | Lookup(s.documents, Key(f)).Some?
        ensures Entry(c, Configured(c, s.profile, config).profile, f).Some?
      {
        TameUpdateClearsNothing(c, s.profile, config, f);
      }
    case SaveIt => SavedIsCovered(c, s.profile, s.documents);
  }

  lemma {:induction false} RunKeepsRelated(c: Conversions, s: State, t: Plain, ops: seq<Op>)
    requires Sound(c) && Related(c, s, t)
    requires forall i :: 0 <= i < |ops| ==> Tame(c, ops[i])
    ensures Related(c, Run(c, s, ops), PlainRun(c, t, ops))
    decreases |ops|
  {
    if ops != [] {
      StepKeepsRelated(c, s, t, ops[0]);
      RunKeepsRelated(c, Step(c, s, ops[0]), PlainStep(c, t, ops[0]), ops[1..]);
    }
  }

  /** Until a field is cleared, no run can tell the shared JSON column from five columns of their own. */
  lemma ColumnRefinesPlainStore(c: Conversions, ops: seq<Op>)
    requires Sound(c) && forall i :: 0 <= i < |ops| ==> Tame(c, ops[i])
    ensures
      var s, t := Run(c, Fresh(), ops), PlainRun(c, PlainFresh(), ops);
      s.profile == t.profile && s.status == t.status && s.rowStatus == t.rowStatus && Load(c, s.row) == Ok(t.stored)
  {
    RunKeepsRelated(c, Fresh(), PlainFresh(), ops);
  }

  /**
   A cleared field comes back when the documents still hold an entry for it, which is the case
   for every aggregate loaded from a column that had one.
   */
  lemma StaleEntryReturns(c: Conversions, s: State, writer: Profile, f: Field)
    requires Sound(c) && Loadable(c, s.documents)
    requires Entry(c, s.profile, f).None? && Entry(c, writer, f).Some?
    requires Lookup(s.documents, Key(f)) == Entry(c, writer, f)
    ensures Entry(c, Run(c, s, [SaveIt, LoadIt]).profile, f) == Entry(c, writer, f)
  {
    RunTwo(c, s, SaveIt, LoadIt);
    var row := Save(c, s.profile, s.documents);
    SavedField(c, s.profile, s.documents, f);
    FieldsLoadable(c, s.profile, s.documents);
    LoadedFields(c, row);
    EntryReadsBack(c, writer, row, f);
  }

  /** Setting a vertical and saving it leaves a row that reads back with it. */
  lemma FilledRow(c: Conversions, entry: Json)
    requires Sound(c) && entry != Null
    ensures
      var s := Run(c, Fresh(), [Configure(map[Key(Industry) := entry]), SaveIt]);
      && Load(c, s.row) == Ok(Blank.(industryVertical := entry))
      && Loadable(c, s.row)
      && Lookup(s.row, Key(Industry)) == Some(entry)
  {
    var fill := Configure(map[Key(Industry) := entry]);
    var filled := Blank.(industryVertical := entry);
    RunTwo(c, Fresh(), fill, SaveIt);
    assert Step(c, Fresh(), fill).profile == filled;
    ReadsBackIff(c, filled, None);
    SavedField(c, filled, None, Industry);
    LoadedFields(c, Save(c, filled, None));
  }

  /** The smallest such run: set a vertical, clear it, and find it again. */
  lemma ClearedVerticalReappears(c: Conversions, entry: Json)
    requires Sound(c) && entry != Null
    ensures
      var fill, clear := Configure(map[Key(Industry) := entry]), Configure(map[Key(Industry) := Null]);
      Run(c, Fresh(), [fill, SaveIt] + [LoadIt, clear]).profile.industryVertical == Null &&
      Run(c, Fresh(), [fill, SaveIt] + [LoadIt, clear] + [SaveIt, LoadIt]).profile.industryVertical == entry
  {
    var fill, clear := Configure(map[Key(Industry) := entry]), Configure(map[Key(Industry) := Null]);
    FilledRow(c, entry);
    var s := Run(c, Fresh(), [fill, SaveIt]);
    RunConcat(c, Fresh(), [fill, SaveIt], [LoadIt, clear]);
    RunTwo(c, s, LoadIt, clear);
    var t := Run(c, s, [LoadIt, clear]);
    RunConcat(c, Fresh(), [fill, SaveIt] + [LoadIt, clear], [SaveIt, LoadIt]);
    StaleEntryReturns(c, t, Blank.(industryVertical := entry), Industry);
  }

  lemma {:induction false} RunConcat(c: Conversions, s: State, a: seq<Op>, b: seq<Op>)
    ensures Run(c, s, a + b) == Run(c, Run(c, s, a), b)
    decreases |a|
  {
    if a == [] {
      assert a + b == b;
    } else {
      assert (a + b)[1..] == a[1..] + b;
      RunConcat(c, Step(c, s, a[0]), a[1..], b);
    }
  }

  lemma RunTwo(c: Conversions, s: State, a: Op, b: Op)
    ensures Run(c, s, [a, b]) == Step(c, Step(c, s, a), b)
  {
    assert [a, b][1..] == [b] && [b][1..] == [];
    assert Run(c, s, [a, b]) == Run(c, Step(c, s, a), [b]);
    assert Run(c, Step(c, s, a), [b]) == Run(c, Step(c, Step(c, s, a), b), []);
  }
}

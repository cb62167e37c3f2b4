/**
 The enterprise profile and the JSON column that stores it beside the KYC documents.

 Saving lays the non-empty profile fields over whatever documents the aggregate holds; loading
 reads the fields back out of the same column.
 */
module EnterpriseStore {
  import opened Prelude
  import opened CanonicalJson

  type Document = map<string, Json>

  datatype KycStatus = Pending | KycSubmitted | Verified | Active

  /** The fields that live inside the JSON column; `Null` and `None` are Python's `None`. */
  datatype Profile = Profile(
    industryVertical: Json,
    geography: Json,
    commodities: seq<Json>,
    minOrder: Option<real>,
    maxOrder: Option<real>)

  /**
   Library conversions: `Decimal(str(v))`, which raises on most values, `float(d)` as it lands in
   the column, and `str(v)`.
   */
  datatype Conversions = Conversions(amount: Json -> Option<real>, column: real -> Json, show: Json -> string)

  /** A float survives being printed, read as a decimal and turned into a float again. */
  predicate SurvivesColumn(c: Conversions, d: real) {
    && c.column(d) != Null
    && c.amount(c.column(d)).Some?
    && c.column(c.amount(c.column(d)).value) == c.column(d)
  }

  ghost predicate Sound(c: Conversions) {
    forall d :: SurvivesColumn(c, d)
  }

  predicate Truthy(v: Json) {
    match v
    case Null => false
    case Bool(b) => b
    case Int(n) => n != 0
    case Float(text) => text != "0.0" && text != "-0.0"
    case Str(s) => s != ""
    case Arr(items) => items != []
    case Obj(members) => members != []
  }

  /** `list(v)`: a list, the characters of a string or the keys of a dict; anything else raises. */
  function Listed(v: Json): Option<seq<Json>> {
    match v
    case Arr(items) => Some(items)
    case Str(s) => Some(seq(|s|, i requires 0 <= i < |s| => Str([s[i]])))
    case Obj(ms) => Some(seq(|ms|, i requires 0 <= i < |ms| => Str(ms[i].key)))
    case _ => None
  }

  // ---------------------------------------------------------------------------------------------
  // Fields
  // ---------------------------------------------------------------------------------------------

  datatype Field = Industry | Geography | Commodities | MinOrder | MaxOrder

  function Key(f: Field): string {
    match f
    case Industry => "industry_vertical"
    case Geography => "geography"
    case Commodities => "commodities"
    case MinOrder => "min_order_value"
    case MaxOrder => "max_order_value"
  }

  function Lookup(column: Option<Document>, key: string): Option<Json> {
    if column.Some? && key in column.value then Some(column.value[key]) else None
  }

  function Get(column: Option<Document>, key: string): Json {
    if Lookup(column, key).Some? then Lookup(column, key).value else Null
  }

  /** What a profile writes under a field's key; nothing when the field is empty. */
  function Entry(c: Conversions, p: Profile, f: Field): Option<Json> {
    match f
    case Industry => if p.industryVertical != Null then Some(p.industryVertical) else None
    case Geography => if Truthy(p.geography) then Some(p.geography) else None
    case Commodities => if p.commodities != [] then Some(Arr(p.commodities)) else None
    case MinOrder => if p.minOrder.Some? then Some(c.column(p.minOrder.value)) else None
    case MaxOrder => if p.maxOrder.Some? then Some(c.column(p.maxOrder.value)) else None
  }

  // ---------------------------------------------------------------------------------------------
  // Saving and loading
  // ---------------------------------------------------------------------------------------------

  function Put(m: Document, f: Field, entry: Option<Json>): Document {
    if entry.Some? then m[Key(f) := entry.value] else m
  }

  function Entries(c: Conversions, p: Profile): Document {
    Put(Put(Put(Put(Put(map[],
      Industry, Entry(c, p, Industry)),
      Geography, Entry(c, p, Geography)),
      Commodities, Entry(c, p, Commodities)),
      MinOrder, Entry(c, p, MinOrder)),
      MaxOrder, Entry(c, p, MaxOrder))
  }

  function Save(c: Conversions, p: Profile, documents: Option<Document>): Option<Document> {
    var merged := (if documents.Some? then documents.value else map[]) + Entries(c, p);
    if merged == map[] then None else Some(merged)
  }

  function ReadAmount(c: Conversions, v: Json): Result<Option<real>, Json> {
    if v == Null then Ok(None)
    else if c.amount(v).Some? then Ok(Some(c.amount(v).value))
    else Err(v)
  }

  /** Loading fails with the value that could not be converted. */
  function Load(c: Conversions, column: Option<Document>): Result<Profile, Json> {
    if column.None? || column.value == map[] then Ok(Profile(Null, Str("IN"), [], None, None))
    else
      var doc := column.value;
      var commodities := if "commodities" in doc then Listed(doc["commodities"]) else Some([]);
      if commodities.None? then Err(doc["commodities"])
      else
        var low := ReadAmount(c, Get(column, "min_order_value"));
        if low.Err? then Err(low.error)
        else
          var high := ReadAmount(c, Get(column, "max_order_value"));
          if high.Err? then Err(high.error)
          else Ok(Profile(Get(column, "industry_vertical"),
                          if "geography" in doc then doc["geography"] else Str("IN"),
                          commodities.value, low.value, high.value))
  }

  /** Saved amounts come back as the decimal of the float that was stored. */
  function Rounded(c: Conversions, d: Option<real>): Option<real> {
    if d.Some? then c.amount(c.column(d.value)) else None
  }

  function RoundedProfile(c: Conversions, p: Profile): Profile {
    p.(minOrder := Rounded(c, p.minOrder), maxOrder := Rounded(c, p.maxOrder))
  }

  lemma AmountsSurvive(c: Conversions, p: Profile)
    requires Sound(c)
    ensures p.minOrder.Some? ==> SurvivesColumn(c, p.minOrder.value)
    ensures p.maxOrder.Some? ==> SurvivesColumn(c, p.maxOrder.value)
  {
  }

  /** A saved column holds the profile's entry for each field, and the old document's where it has none. */
  lemma SavedField(c: Conversions, p: Profile, documents: Option<Document>, f: Field)
    ensures Lookup(Save(c, p, documents), Key(f)) ==
      if Entry(c, p, f).Some? then Entry(c, p, f) else Lookup(documents, Key(f))
  {
    var merged := (if documents.Some? then documents.value else map[]) + Entries(c, p);
    assert Key(f) in merged ==> merged != map[];
  }

  /** Saving touches no key but the five it owns. */
  lemma OtherKeysKept(c: Conversions, p: Profile, documents: Option<Document>, key: string)
    requires forall f :: key != Key(f)
    ensures Lookup(Save(c, p, documents), key) == Lookup(documents, key)
  {
    assert key != Key(Industry) && key != Key(Geography) && key != Key(Commodities);
    assert key != Key(MinOrder) && key != Key(MaxOrder);
    var merged := (if documents.Some? then documents.value else map[]) + Entries(c, p);
    assert key in merged ==> merged != map[];
  }

  predicate Loadable(c: Conversions, column: Option<Document>) {
    && (Lookup(column, "commodities").Some? ==> Listed(Lookup(column, "commodities").value).Some?)
    && (Get(column, "min_order_value") != Null ==> c.amount(Get(column, "min_order_value")).Some?)
    && (Get(column, "max_order_value") != Null ==> c.amount(Get(column, "max_order_value")).Some?)
  }

  /** Loading sees the column through its five keys only: an absent column is an empty one. */
  lemma LoadedFields(c: Conversions, column: Option<Document>)
    ensures Load(c, column).Ok? <==> Loadable(c, column)
    ensures Load(c, column).Ok? ==>
      var p := Load(c, column).value;
      && p.industryVertical == Get(column, Key(Industry))
      && p.geography == (if Lookup(column, Key(Geography)).Some? then Get(column, Key(Geography)) else Str("IN"))
      && Some(p.commodities) ==
         (if Lookup(column, Key(Commodities)).Some? then Listed(Get(column, Key(Commodities))) else Some([]))
      && p.minOrder == (if Get(column, Key(MinOrder)) == Null then None else c.amount(Get(column, Key(MinOrder))))
      && p.maxOrder == (if Get(column, Key(MaxOrder)) == Null then None else c.amount(Get(column, Key(MaxOrder))))
  {
  }

  /** A profile's geography is stored exactly when it is none of the values that Python counts as false. */
  lemma FalseGeographyIsNotStored(c: Conversions, p: Profile)
    ensures Lookup(Save(c, p, None), "geography").Some? <==>
      p.geography !in {Null, Bool(false), Int(0), Float("0.0"), Float("-0.0"), Str(""), Arr([]), Obj([])}
  {
    SavedField(c, p, None, Geography);
  }

  function Joined(items: seq<Json>): string {
    if items == [] then "" else (if items[0].Str? then items[0].s else "") + Joined(items[1..])
  }

  /** `list` of a string is its characters, one by one; of a dict, its keys in order. */
  lemma ListedParts(v: Json)
    ensures Listed(v).Some? <==> v.Arr? || v.Str? || v.Obj?
    ensures v.Str? ==>
      Joined(Listed(v).value) == v.s && forall x :: x in Listed(v).value ==> x.Str? && |x.s| == 1
    ensures v.Obj? ==>
      |Listed(v).value| == |v.members| && forall i :: 0 <= i < |v.members| ==> Listed(v).value[i] == Str(v.members[i].key)
  {
    if v.Str? {
      JoinedCharacters(v.s, Listed(v).value);
    }
  }

  lemma {:induction false} JoinedCharacters(s: string, items: seq<Json>)
    requires |items| == |s| && forall i :: 0 <= i < |s| ==> items[i] == Str([s[i]])
    ensures Joined(items) == s
  {
    if s != "" {
      JoinedCharacters(s[1..], items[1..]);
      assert s == [s[0]] + s[1..];
    }
  }

  // ---------------------------------------------------------------------------------------------
  // What reads back
  // ---------------------------------------------------------------------------------------------

  /** No empty field hides a document entry that would be read in its place. */
  predicate Undisturbed(p: Profile, documents: Option<Document>) {
    && (p.industryVertical == Null ==> Get(documents, Key(Industry)) == Null)
    && (!Truthy(p.geography) ==> Lookup(documents, Key(Geography)) == Some(p.geography))
    && (p.commodities == [] && Lookup(documents, Key(Commodities)).Some? ==>
          Listed(Get(documents, Key(Commodities))) == Some([]))
    && (p.minOrder.None? ==> Get(documents, Key(MinOrder)) == Null)
    && (p.maxOrder.None? ==> Get(documents, Key(MaxOrder)) == Null)
  }

  /** The column holds a profile's entries over a document's. */
  ghost predicate LaidOver(c: Conversions, p: Profile, documents: Option<Document>, column: Option<Document>) {
    forall f: Field ::
      Lookup(column, Key(f)) == if Entry(c, p, f).Some? then Entry(c, p, f) else Lookup(documents, Key(f))
  }

  lemma LaidOverReadsBack(c: Conversions, p: Profile, documents: Option<Document>, column: Option<Document>)
    requires Sound(c) && LaidOver(c, p, documents, column)
    ensures Load(c, column) == Ok(RoundedProfile(c, p)) <==> Undisturbed(p, documents)
  {
    AmountsSurvive(c, p);
    LoadedFields(c, column);
    assert Lookup(column, Key(Industry)) ==
      if Entry(c, p, Industry).Some? then Entry(c, p, Industry) else Lookup(documents, Key(Industry));
    assert Lookup(column, Key(Geography)) ==
      if Entry(c, p, Geography).Some? then Entry(c, p, Geography) else Lookup(documents, Key(Geography));
    assert Lookup(column, Key(Commodities)) ==
      if Entry(c, p, Commodities).Some? then Entry(c, p, Commodities) else Lookup(documents, Key(Commodities));
    assert Lookup(column, Key(MinOrder)) ==
      if Entry(c, p, MinOrder).Some? then Entry(c, p, MinOrder) else Lookup(documents, Key(MinOrder));
    assert Lookup(column, Key(MaxOrder)) ==
      if Entry(c, p, MaxOrder).Some? then Entry(c, p, MaxOrder) else Lookup(documents, Key(MaxOrder));
  }

  /** A profile reads back whole exactly when no empty field uncovers an entry of the documents. */
  lemma ReadsBackIff(c: Conversions, p: Profile, documents: Option<Document>)
    requires Sound(c)
    ensures Load(c, Save(c, p, documents)) == Ok(RoundedProfile(c, p)) <==> Undisturbed(p, documents)
  {
    forall f: Field
      ensures Lookup(Save(c, p, documents), Key(f)) ==
        if Entry(c, p, f).Some? then Entry(c, p, f) else Lookup(documents, Key(f))
    {
      SavedField(c, p, documents, f);
    }
    LaidOverReadsBack(c, p, documents, Save(c, p, documents));
  }

  /** An entry that some profile wrote is read as a field that writes the same entry. */
  lemma EntryReadsBack(c: Conversions, p: Profile, column: Option<Document>, f: Field)
    requires Sound(c) && Load(c, column).Ok?
    requires Entry(c, p, f).Some? && Lookup(column, Key(f)) == Entry(c, p, f)
    ensures Entry(c, Load(c, column).value, f) == Entry(c, p, f)
  {
    AmountsSurvive(c, p);
    LoadedFields(c, column);
  }

  /** A field has the same value in both, amounts up to the float they are stored as. */
  predicate SameField(c: Conversions, p: Profile, q: Profile, f: Field) {
    match f
    case Industry => p.industryVertical == q.industryVertical
    case Geography => p.geography == q.geography
    case Commodities => p.commodities == q.commodities
    case MinOrder => p.minOrder.Some? == q.minOrder.Some? && Rounded(c, p.minOrder) == Rounded(c, q.minOrder)
    case MaxOrder => p.maxOrder.Some? == q.maxOrder.Some? && Rounded(c, p.maxOrder) == Rounded(c, q.maxOrder)
  }

  /** For a non-empty field, equal entries are equal values. */
  lemma EntryDeterminesField(c: Conversions, p: Profile, q: Profile, f: Field)
    requires Sound(c) && Entry(c, p, f).Some?
    ensures Entry(c, p, f) == Entry(c, q, f) <==> SameField(c, p, q, f)
  {
    AmountsSurvive(c, p);
    AmountsSurvive(c, q);
  }

  /** Whatever the column held, saving what was loaded reaches a fixed point at once. */
  lemma SavingTwiceIsSavingOnce(c: Conversions, column: Option<Document>)
    requires Sound(c) && Load(c, column).Ok?
    ensures
      var once := Save(c, Load(c, column).value, column);
      Load(c, once).Ok? && Save(c, Load(c, once).value, once) == once
  {
    var p := Load(c, column).value;
    var once := Save(c, p, column);
    LoadedFields(c, column);
    FieldsLoadable(c, p, column);
    LoadedFields(c, once);
    var q := Load(c, once).value;
    forall f: Field | Entry(c, q, f).Some?
      ensures Lookup(once, Key(f)) == Entry(c, q, f)
    {
      ReloadedEntry(c, column, f);
    }
    NothingNew(c, q, once);
  }

  /** After one load and save, every field that loads non-empty is stored as it would be saved again. */
  lemma ReloadedEntry(c: Conversions, column: Option<Document>, f: Field)
    requires Sound(c) && Load(c, column).Ok?
    ensures
      var once := Save(c, Load(c, column).value, column);
      Load(c, once).Ok? ==>
        var q := Load(c, once).value;
        Entry(c, q, f).Some? ==> Lookup(once, Key(f)) == Entry(c, q, f)
  {
    var p := Load(c, column).value;
    var once := Save(c, p, column);
    SavedField(c, p, column, f);
    if Load(c, once).Ok? {
      LoadedFields(c, column);
      LoadedFields(c, once);
      if Entry(c, p, f).Some? {
        EntryReadsBack(c, p, once, f);
      }
    }
  }

  /** What was loaded can be saved and loaded again. */
  lemma FieldsLoadable(c: Conversions, p: Profile, column: Option<Document>)
    requires Sound(c) && Loadable(c, column)
    ensures Loadable(c, Save(c, p, column))
  {
    AmountsSurvive(c, p);
    SavedField(c, p, column, Commodities);
    SavedField(c, p, column, MinOrder);
    SavedField(c, p, column, MaxOrder);
  }

  /** Saving entries that the column already holds leaves it as it is. */
  lemma NothingNew(c: Conversions, p: Profile, column: Option<Document>)
    requires column != Some(map[])
    requires forall f :: Entry(c, p, f).Some? ==> Lookup(column, Key(f)) == Entry(c, p, f)
    ensures Save(c, p, column) == column
  {
    var doc := if column.Some? then column.value else map[];
    assert Entry(c, p, Industry).Some? ==> Lookup(column, Key(Industry)) == Entry(c, p, Industry);
    assert Entry(c, p, Geography).Some? ==> Lookup(column, Key(Geography)) == Entry(c, p, Geography);
    assert Entry(c, p, Commodities).Some? ==> Lookup(column, Key(Commodities)) == Entry(c, p, Commodities);
    assert Entry(c, p, MinOrder).Some? ==> Lookup(column, Key(MinOrder)) == Entry(c, p, MinOrder);
    assert Entry(c, p, MaxOrder).Some? ==> Lookup(column, Key(MaxOrder)) == Entry(c, p, MaxOrder);
    assert doc + Entries(c, p) == doc;
  }
}

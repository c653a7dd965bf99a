/** Comparing local prices with those of several channels (buildDifferences in
    controller/ratio_sync.go): a diff over nested maps, then a pruning pass over it. */
module RatioDiff {
  import opened Basics

  /** The JSON scalars that occur as prices, modes and expressions. */
  datatype Value = Null | Num(r: real) | Whole(n: int) | Text(s: string) | Flag(b: bool)

  const SAME := Text("same")

  /** field -> model -> value */
  type Data = map<string, map<string, Value>>

  datatype Channel = Channel(name: string, data: Data)

  const FIELDS := ["model_ratio", "completion_ratio", "cache_ratio", "create_cache_ratio", "image_ratio",
                   "audio_ratio", "audio_completion_ratio", "model_price", "billing_mode", "billing_expr"]

  predicate Numeric(field: string) { field in FIELDS[..8] }

  predicate ValuesEqual(a: Value, b: Value) {
    if a.Num? && b.Num? then NearlyEqual(a.r, b.r) else a == b
  }

  function AsFloat(v: Value): Option<real> {
    match v case Num(r) => Some(r) case Whole(n) => Some(n as real) case _ => None
  }

  function Normalize(field: string, v: Value): Value {
    if Numeric(field) && AsFloat(v).Some? then Num(AsFloat(v).value) else v
  }

  /** The normalized value a data set carries, if it carries one. */
  function Get(data: Data, field: string, model: string): Option<Value> {
    if field in data && model in data[field] then Some(Normalize(field, data[field][model])) else None
  }

  /** The local value; a missing one reads as null. */
  function Local(local: Data, field: string, model: string): Value {
    var v := Get(local, field, model);
    if v.Some? then v.value else Null
  }

  /** A channel carries a value and it is not the local one. */
  predicate Differs(local: Data, c: Channel, field: string, model: string) {
    Get(c.data, field, model).Some? && !ValuesEqual(Local(local, field, model), Get(c.data, field, model).value)
  }

  /** What is listed for a channel: "same", its own value, or null when it has none. */
  function Shown(local: Data, c: Channel, field: string, model: string): Value {
    if Differs(local, c, field, model) then Get(c.data, field, model).value
    else if Get(c.data, field, model).None? && !Local(local, field, model).Null? then Null
    else SAME
  }

  predicate Ordinary(v: Value) { !v.Null? && v != SAME }

  /** Prices of 37.5 with a completion ratio of one are the marker of an unmaintained site. */
  predicate Trusted(c: Channel, model: string) {
    !(&& "model_ratio" in c.data && "completion_ratio" in c.data
      && model in c.data["model_ratio"] && model in c.data["completion_ratio"]
      && AsFloat(c.data["model_ratio"][model]).Some? && AsFloat(c.data["completion_ratio"][model]).Some?
      && NearlyEqual(AsFloat(c.data["model_ratio"][model]).value, 37.5)
      && NearlyEqual(AsFloat(c.data["completion_ratio"][model]).value, 1.0))
  }

  datatype Item = Item(current: Value, upstreams: map<string, Value>, confidence: map<string, bool>)

  type Differences = map<string, map<string, Item>>

  predicate DistinctNames(cs: seq<Channel>) {
    forall i, j :: 0 <= i < j < |cs| ==> cs[i].name != cs[j].name
  }

  // ---------- the specification of the result ----------

  /** The first pass keeps a cell when some channel changes an existing value, or carries a
      value where there is none. */
  ghost predicate Included(local: Data, cs: seq<Channel>, field: string, model: string) {
    field in FIELDS && Changed(local, cs, field, model)
  }

  ghost predicate Changed(local: Data, cs: seq<Channel>, field: string, model: string) {
    if Local(local, field, model).Null? then exists i :: 0 <= i < |cs| && Get(cs[i].data, field, model).Some?
    else exists i :: 0 <= i < |cs| && Differs(local, cs[i], field, model)
  }

  /** The second pass keeps channels that list an ordinary value somewhere in the first. */
  ghost predicate Listed(local: Data, cs: seq<Channel>, c: Channel) {
    exists f, m :: Included(local, cs, f, m) && Ordinary(Shown(local, c, f, m))
  }

  /** The third drops cells whose remaining channels all say "same". */
  ghost predicate Reported(local: Data, cs: seq<Channel>, field: string, model: string) {
    Included(local, cs, field, model) &&
    exists i :: 0 <= i < |cs| && Listed(local, cs, cs[i]) && Shown(local, cs[i], field, model) != SAME
  }

  predicate Has(d: Differences, field: string, model: string) { model in d && field in d[model] }

  /** An item lists exactly the channels of `names`, each with its value and its trust. */
  ghost predicate Faithful(item: Item, local: Data, cs: seq<Channel>, names: set<string>,
                           field: string, model: string)
  {
    && item.current == Local(local, field, model)
    && item.upstreams.Keys == item.confidence.Keys == names
    && forall i :: 0 <= i < |cs| && cs[i].name in names ==>
         item.upstreams[cs[i].name] == Shown(local, cs[i], field, model) &&
         item.confidence[cs[i].name] == Trusted(cs[i], model)
  }

  function Names(cs: seq<Channel>): set<string> { set i | 0 <= i < |cs| :: cs[i].name }

  ghost function ListedNames(local: Data, cs: seq<Channel>): set<string> {
    set i | 0 <= i < |cs| && Listed(local, cs, cs[i]) :: cs[i].name
  }

  // ---------- what the result means ----------

  /** Soundness, for any values: a reported cell is one where some channel differs. */
  lemma ReportedDiffers(local: Data, cs: seq<Channel>, field: string, model: string)
    requires Reported(local, cs, field, model)
    ensures exists i :: 0 <= i < |cs| && Differs(local, cs[i], field, model)
  {
    if Local(local, field, model).Null? {
      var i :| 0 <= i < |cs| && Listed(local, cs, cs[i]) && Shown(local, cs[i], field, model) != SAME;
      assert Differs(local, cs[i], field, model);
    }
  }

  /** Pruning never drops a genuine difference: a differing value other than null and "same"
      is reported, under its channel, as it is. */
  lemma OrdinaryDifferenceIsReported(local: Data, cs: seq<Channel>, i: nat, field: string, model: string)
    requires i < |cs| && field in FIELDS && Differs(local, cs[i], field, model)
    requires Ordinary(Get(cs[i].data, field, model).value)
    ensures Reported(local, cs, field, model) && Listed(local, cs, cs[i])
    ensures Shown(local, cs[i], field, model) == Get(cs[i].data, field, model).value
  {
    assert Included(local, cs, field, model);
    assert Ordinary(Shown(local, cs[i], field, model));
  }

  /** No channel carries null or the text "same". */
  ghost predicate OrdinaryValues(cs: seq<Channel>) {
    forall i, f, m :: 0 <= i < |cs| && Get(cs[i].data, f, m).Some? ==> Ordinary(Get(cs[i].data, f, m).value)
  }

  /** For ordinary upstream values the diff is exact, cell by cell and channel by channel. */
  lemma DiffIsExact(local: Data, cs: seq<Channel>, field: string, model: string)
    requires OrdinaryValues(cs)
    ensures Reported(local, cs, field, model) <==>
            field in FIELDS && exists i :: 0 <= i < |cs| && Differs(local, cs[i], field, model)
    ensures forall i :: 0 <= i < |cs| ==>
              (Listed(local, cs, cs[i]) <==> exists f, m :: f in FIELDS && Differs(local, cs[i], f, m))
  {
    if Reported(local, cs, field, model) { ReportedDiffers(local, cs, field, model); }
    if i :| field in FIELDS && 0 <= i < |cs| && Differs(local, cs[i], field, model) {
      OrdinaryDifferenceIsReported(local, cs, i, field, model);
    }
    forall i | 0 <= i < |cs|
      ensures Listed(local, cs, cs[i]) <==> exists f, m :: f in FIELDS && Differs(local, cs[i], f, m)
    {
      if f, m :| Included(local, cs, f, m) && Ordinary(Shown(local, cs[i], f, m)) {
        assert f in FIELDS && Differs(local, cs[i], f, m);
      }
      if f, m :| f in FIELDS && Differs(local, cs[i], f, m) {
        OrdinaryDifferenceIsReported(local, cs, i, f, m);
      }
    }
  }

  /** The channel offers, somewhere, a differing value other than null and "same". */
  ghost predicate OffersOrdinary(local: Data, c: Channel) {
    exists f, m :: f in FIELDS && Differs(local, c, f, m) && Ordinary(Get(c.data, f, m).value)
  }

  /** Read off the input, the channel is taken to agree on a cell: neither side has a value, or
      its value equals the local one, or it is the text "same". */
  predicate Agrees(local: Data, c: Channel, field: string, model: string) {
    match Get(c.data, field, model)
    case None => Local(local, field, model).Null?
    case Some(v) => v == SAME || ValuesEqual(Local(local, field, model), v)
  }

  /** A channel is kept by the second pass iff it offers an ordinary difference somewhere. */
  lemma ListedIff(local: Data, cs: seq<Channel>, i: nat)
    requires i < |cs|
    ensures Listed(local, cs, cs[i]) <==> OffersOrdinary(local, cs[i])
  {
    if f, m :| Included(local, cs, f, m) && Ordinary(Shown(local, cs[i], f, m)) {
      assert f in FIELDS && Differs(local, cs[i], f, m);
    }
    if f, m :| f in FIELDS && Differs(local, cs[i], f, m) && Ordinary(Get(cs[i].data, f, m).value) {
      OrdinaryDifferenceIsReported(local, cs, i, f, m);
    }
  }

  /** Some channel that offers an ordinary difference somewhere does not agree on the cell. */
  ghost predicate Disputed(local: Data, cs: seq<Channel>, field: string, model: string) {
    exists j :: 0 <= j < |cs| && OffersOrdinary(local, cs[j]) && !Agrees(local, cs[j], field, model)
  }

  /** For arbitrary values a difference goes unreported exactly when every channel offering an
      ordinary difference anywhere agrees on this cell. */
  lemma DifferenceLostIff(local: Data, cs: seq<Channel>, i: nat, field: string, model: string)
    requires i < |cs| && field in FIELDS && Differs(local, cs[i], field, model)
    ensures !Reported(local, cs, field, model) <==>
            forall j :: 0 <= j < |cs| && OffersOrdinary(local, cs[j]) ==> Agrees(local, cs[j], field, model)
  {
    assert Included(local, cs, field, model);
    forall j | 0 <= j < |cs|
      ensures Listed(local, cs, cs[j]) <==> OffersOrdinary(local, cs[j])
      ensures Shown(local, cs[j], field, model) == SAME <==> Agrees(local, cs[j], field, model)
    {
      ListedIff(local, cs, j);
    }
  }

  lemma ReportedIffDisputed(local: Data, cs: seq<Channel>, i: nat, field: string, model: string)
    requires i < |cs| && field in FIELDS && Differs(local, cs[i], field, model)
    ensures Reported(local, cs, field, model) <==> Disputed(local, cs, field, model)
  {
    DifferenceLostIff(local, cs, i, field, model);
  }

  /** Every difference is reported. */
  ghost predicate NothingLost(local: Data, cs: seq<Channel>) {
    forall i, f, m :: 0 <= i < |cs| && f in FIELDS && Differs(local, cs[i], f, m) ==> Reported(local, cs, f, m)
  }

  /** A value of null or "same" that differs from the local one is found only where disputed. */
  ghost predicate OddValuesDisputed(local: Data, cs: seq<Channel>) {
    forall i, f, m :: 0 <= i < |cs| && f in FIELDS && Differs(local, cs[i], f, m) ==>
      Ordinary(Get(cs[i].data, f, m).value) || Disputed(local, cs, f, m)
  }

  /** The diff loses no difference at all exactly when every cell at which a channel's value is
      null or "same" against another local value is disputed. */
  lemma NothingLostIff(local: Data, cs: seq<Channel>)
    ensures NothingLost(local, cs) <==> OddValuesDisputed(local, cs)
  {
    if NothingLost(local, cs) {
      forall i, f, m | 0 <= i < |cs| && f in FIELDS && Differs(local, cs[i], f, m) ensures Disputed(local, cs, f, m) {
        ReportedIffDisputed(local, cs, i, f, m);
      }
    }
    if OddValuesDisputed(local, cs) {
      forall i, f, m | 0 <= i < |cs| && f in FIELDS && Differs(local, cs[i], f, m) ensures Reported(local, cs, f, m) {
        ReportedIffDisputed(local, cs, i, f, m);
        if Ordinary(Get(cs[i].data, f, m).value) { OrdinaryDifferenceIsReported(local, cs, i, f, m); }
      }
    }
  }

  /** It does happen: an upstream value that is the text "same" is taken for agreement. */
  lemma TextSameIsLost()
    ensures var local := map["billing_mode" := map["m" := Text("ratio")]];
      var c := Channel("a", map["billing_mode" := map["m" := SAME]]);
      Differs(local, c, "billing_mode", "m") && !Reported(local, [c], "billing_mode", "m")
  {
    var local := map["billing_mode" := map["m" := Text("ratio")]];
    var c := Channel("a", map["billing_mode" := map["m" := SAME]]);
    assert forall f, m :: Shown(local, c, f, m) == SAME;
  }

  // ---------- differences in terms of the raw values ----------

  /** The eight synchronised fields that hold prices. */
  predicate PriceField(field: string) {
    field in {"model_ratio", "completion_ratio", "cache_ratio", "create_cache_ratio", "image_ratio",
              "audio_ratio", "audio_completion_ratio", "model_price"}
  }

  /** And the two that hold text. */
  predicate TextField(field: string) { field in {"billing_mode", "billing_expr"} }

  lemma SyncedFields(field: string)
    ensures field in FIELDS <==> PriceField(field) || TextField(field)
    ensures Numeric(field) <==> PriceField(field)
  {
    assert FIELDS == FIELDS[..8] + FIELDS[8..];
    assert FIELDS[8..] == ["billing_mode", "billing_expr"];
    PriceFields(field);
    assert |"billing_mode"| == 12 && |"billing_expr"| == 12;
  }

  lemma PriceFields(field: string)
    ensures field in FIELDS[..8] <==> PriceField(field)
  {
    assert FIELDS[..8] == ["model_ratio", "completion_ratio", "cache_ratio", "create_cache_ratio", "image_ratio",
                           "audio_ratio", "audio_completion_ratio", "model_price"];
  }

  /** A price is a JSON number, whether it was decoded as a real or as an integer. */
  predicate Reads(v: Value, r: real) { v == Num(r) || (v.Whole? && v.n as real == r) }

  predicate Carries(data: Data, field: string, model: string) { field in data && model in data[field] }

  /** Two prices: a billionth apart or more, the channel's is reported as it is; any closer, the
      channel is listed with "same". */
  lemma PricesDiffer(local: Data, cs: seq<Channel>, i: nat, field: string, model: string, mine: real, theirs: real)
    requires i < |cs| && PriceField(field) && Carries(local, field, model) && Carries(cs[i].data, field, model)
    requires Reads(local[field][model], mine) && Reads(cs[i].data[field][model], theirs)
    ensures mine - theirs >= 0.000000001 || theirs - mine >= 0.000000001 ==>
              Reported(local, cs, field, model) && Listed(local, cs, cs[i]) &&
              Shown(local, cs[i], field, model) == Num(theirs)
    ensures -0.000000001 < mine - theirs < 0.000000001 ==> Shown(local, cs[i], field, model) == Text("same")
    ensures Local(local, field, model) == Num(mine)
  {
    SyncedFields(field);
    assert Get(local, field, model) == Some(Num(mine)) && Get(cs[i].data, field, model) == Some(Num(theirs));
    if Differs(local, cs[i], field, model) { OrdinaryDifferenceIsReported(local, cs, i, field, model); }
  }

  /** Two texts: unless they are equal the channel's is reported, if it is not "same". */
  lemma TextsDiffer(local: Data, cs: seq<Channel>, i: nat, field: string, model: string, mine: string, theirs: string)
    requires i < |cs| && (PriceField(field) || TextField(field))
    requires Carries(local, field, model) && Carries(cs[i].data, field, model)
    requires local[field][model] == Text(mine) && cs[i].data[field][model] == Text(theirs)
    ensures mine != theirs && theirs != "same" ==>
              Reported(local, cs, field, model) && Listed(local, cs, cs[i]) &&
              Shown(local, cs[i], field, model) == Text(theirs)
    ensures mine == theirs ==> Shown(local, cs[i], field, model) == Text("same")
    ensures Local(local, field, model) == Text(mine)
  {
    SyncedFields(field);
    if mine != theirs && theirs != "same" { OrdinaryDifferenceIsReported(local, cs, i, field, model); }
  }

  /** Where there is no local value a channel's price or text is always reported, except "same". */
  lemma NewValuesAreReported(local: Data, cs: seq<Channel>, i: nat, field: string, model: string)
    requires i < |cs| && (PriceField(field) || TextField(field))
    requires !Carries(local, field, model) && Carries(cs[i].data, field, model)
    ensures forall r :: PriceField(field) && Reads(cs[i].data[field][model], r) ==>
              Reported(local, cs, field, model) && Shown(local, cs[i], field, model) == Num(r)
    ensures var v := cs[i].data[field][model];
      v.Text? && v.s != "same" ==> Reported(local, cs, field, model) && Shown(local, cs[i], field, model) == v
    ensures Local(local, field, model) == Null
  {
    SyncedFields(field);
    var v := Get(cs[i].data, field, model).value;
    if !v.Null? && v != Text("same") { OrdinaryDifferenceIsReported(local, cs, i, field, model); }
  }

  /** A channel without a value is listed with null where there is a local one, and never makes
      a cell reported by itself. */
  lemma MissingValuesAreNull(local: Data, c: Channel, field: string, model: string)
    requires !Carries(c.data, field, model)
    ensures Shown(local, c, field, model) ==
            if Carries(local, field, model) && !local[field][model].Null? then Null else Text("same")
    ensures !Reported(local, [c], field, model)
  {
    if Reported(local, [c], field, model) { ReportedDiffers(local, [c], field, model); }
  }

  /** A channel is distrusted on a model iff both its prices are within a billionth of 37.5 and 1. */
  lemma DistrustedIff(c: Channel, model: string)
    ensures !Trusted(c, model) <==>
            && Carries(c.data, "model_ratio", model) && Carries(c.data, "completion_ratio", model)
            && (exists m :: Reads(c.data["model_ratio"][model], m) && -0.000000001 < m - 37.5 < 0.000000001)
            && (exists r :: Reads(c.data["completion_ratio"][model], r) && -0.000000001 < r - 1.0 < 0.000000001)
  {
    if !Trusted(c, model) {
      assert Reads(c.data["model_ratio"][model], AsFloat(c.data["model_ratio"][model]).value);
      assert Reads(c.data["completion_ratio"][model], AsFloat(c.data["completion_ratio"][model]).value);
    }
  }

  // ---------- copying a channel's values settles the difference ----------

  function Overlay(under: map<string, Value>, over: map<string, Value>): map<string, Value> { under + over }

  /** Local data after taking over every value the channel carries. */
  function Copied(local: Data, c: Channel): Data {
    map f | f in local.Keys + c.data.Keys ::
      Overlay(if f in local then local[f] else map[], if f in c.data then c.data[f] else map[])
  }

  /** Synchronisation converges: after copying a channel, comparing with it alone reports
      nothing, whatever values it carries. */
  lemma SyncConverges(local: Data, c: Channel, field: string, model: string)
    ensures !Reported(Copied(local, c), [c], field, model)
  {
    assert Get(c.data, field, model).Some? ==> Get(Copied(local, c), field, model) == Get(c.data, field, model);
    assert forall i :: 0 <= i < |[c]| ==> !Differs(Copied(local, c), [c][i], field, model);
    if Reported(Copied(local, c), [c], field, model) { ReportedDiffers(Copied(local, c), [c], field, model); }
  }

  /** The fields that occur in a diff. */
  function FieldsIn(d: Differences): set<string> { set m, f | m in d && f in d[m] :: f }

  /** Local data after taking over, from a diff, the values listed for one channel. */
  function Patched(local: Data, d: Differences, name: string): Data {
    map f | f in local.Keys + FieldsIn(d) ::
      map m | m in (if f in local then local[f].Keys else {}) + d.Keys &&
            (Has(d, f, m) || (f in local && m in local[f])) ::
        if Has(d, f, m) && name in d[m][f].upstreams then d[m][f].upstreams[name]
        else if f in local && m in local[f] then local[f][m] else Null
  }

  lemma NormalizeTwice(field: string, v: Value)
    ensures Normalize(field, Normalize(field, v)) == Normalize(field, v)
  {
  }

  lemma PatchedGet(local: Data, d: Differences, name: string, field: string, model: string)
    ensures Has(d, field, model) && name in d[model][field].upstreams ==>
              Get(Patched(local, d, name), field, model) == Some(Normalize(field, d[model][field].upstreams[name]))
    ensures !Has(d, field, model) ==> Get(Patched(local, d, name), field, model) == Get(local, field, model)
  {
    if Has(d, field, model) { assert field in FieldsIn(d); }
  }

  lemma ListedAlone(local: Data, c: Channel, field: string, model: string)
    requires OrdinaryValues([c]) && field in FIELDS && Differs(local, c, field, model)
    ensures c.name in ListedNames(local, [c]) && Shown(local, c, field, model) == Get(c.data, field, model).value
  {
    assert [c][0] == c;
    OrdinaryDifferenceIsReported(local, [c], 0, field, model);
  }

  /** Taking over exactly what the diff of one channel reports, and nothing else, settles it:
      the next diff against that channel is empty, although values that differ by less than
      an epsilon were left as they were. */
  lemma PatchSettles(local: Data, c: Channel, d: Differences, field: string, model: string)
    requires OrdinaryValues([c])
    requires forall f, m :: Has(d, f, m) <==> Reported(local, [c], f, m)
    requires forall f, m :: Has(d, f, m) ==> Faithful(d[m][f], local, [c], ListedNames(local, [c]), f, m)
    ensures !Reported(Patched(local, d, c.name), [c], field, model)
  {
    var patched := Patched(local, d, c.name);
    assert [c][0] == c;
    if Reported(patched, [c], field, model) {
      ReportedDiffers(patched, [c], field, model);
      assert Differs(patched, c, field, model);
      PatchedGet(local, d, c.name, field, model);
      DiffIsExact(local, [c], field, model);
      if Differs(local, c, field, model) {
        ListedAlone(local, c, field, model);
        assert d[model][field].upstreams[[c][0].name] == Shown(local, [c][0], field, model);
        NormalizeTwice(field, c.data[field][model]);
      }
      assert false;
    }
  }

  // ---------- the passes themselves ----------

  method BuildDifferences(local: Data, cs: seq<Channel>) returns (d: Differences)
    requires DistinctNames(cs)
    ensures forall f, m :: Has(d, f, m) <==> Reported(local, cs, f, m)
    ensures forall f, m :: Has(d, f, m) ==> Faithful(d[m][f], local, cs, ListedNames(local, cs), f, m)
    ensures forall m :: m in d ==> d[m] != map[]
  {
    var models := CollectModels(local, cs, FIELDS);
    var confidence := BuildConfidence(cs, models);
    var raw := FirstPass(local, cs, confidence, models, FIELDS);
    var listed := CollectListed(raw);
    d := Prune(raw, listed);
    ListedIsListedNames(local, cs, raw, listed);
    forall f, m ensures Has(d, f, m) <==> Reported(local, cs, f, m)
      ensures Has(d, f, m) ==> Faithful(d[m][f], local, cs, listed, f, m)
    {
      assert RowPruned(d, raw, listed, m);
      PrunedCell(local, cs, raw, f, m);
    }
    forall m | m in d ensures d[m] != map[] { assert RowPruned(d, raw, listed, m); }
  }

  /** Every model named anywhere. */
  predicate Covers(models: set<string>, data: Data, fields: seq<string>) {
    forall f, m :: f in fields && f in data && m in data[f] ==> m in models
  }

  method CollectFrom(data: Data, seed: set<string>, fields: seq<string>) returns (models: set<string>)
    ensures seed <= models && Covers(models, data, fields)
  {
    models := seed;
    for i := 0 to |fields|
      invariant seed <= models
      invariant forall j, m :: 0 <= j < i && fields[j] in data && m in data[fields[j]] ==> m in models
    {
      if fields[i] in data { models := models + data[fields[i]].Keys; }
    }
  }

  method CollectModels(local: Data, cs: seq<Channel>, fields: seq<string>) returns (models: set<string>)
    ensures Covers(models, local, fields) && forall i :: 0 <= i < |cs| ==> Covers(models, cs[i].data, fields)
  {
    models := CollectFrom(local, {}, fields);
    for i := 0 to |cs|
      invariant Covers(models, local, fields) && forall j :: 0 <= j < i ==> Covers(models, cs[j].data, fields)
    {
      models := CollectFrom(cs[i].data, models, fields);
    }
  }

  ghost predicate Confident(confidence: map<string, map<string, bool>>, c: Channel, models: set<string>) {
    c.name in confidence && confidence[c.name].Keys == models &&
    forall m :: m in models ==> confidence[c.name][m] == Trusted(c, m)
  }

  method BuildConfidence(cs: seq<Channel>, models: set<string>) returns (confidence: map<string, map<string, bool>>)
    requires DistinctNames(cs)
    ensures forall i :: 0 <= i < |cs| ==> Confident(confidence, cs[i], models)
  {
    confidence := map[];
    for i := 0 to |cs|
      invariant forall j :: 0 <= j < i ==> Confident(confidence, cs[j], models)
    {
      var marks := map m | m in models :: true;
      var pending := models;
      while pending != {}
        invariant marks.Keys == models && pending <= models
        invariant forall m :: m in models && m !in pending ==> marks[m] == Trusted(cs[i], m)
        decreases pending
      {
        var m :| m in pending;
        marks := marks[m := Trusted(cs[i], m)];
        pending := pending - {m};
      }
      confidence := confidence[cs[i].name := marks];
      forall j | 0 <= j < i + 1 ensures Confident(confidence, cs[j], models) { }
    }
  }

  predicate AnyCarries(cs: seq<Channel>, field: string, model: string) {
    cs != [] && (AnyCarries(cs[..|cs| - 1], field, model) || Get(cs[|cs| - 1].data, field, model).Some?)
  }

  predicate AnyDiffers(local: Data, cs: seq<Channel>, field: string, model: string) {
    cs != [] && (AnyDiffers(local, cs[..|cs| - 1], field, model) || Differs(local, cs[|cs| - 1], field, model))
  }

  lemma {:induction false} AnyFacts(local: Data, cs: seq<Channel>, field: string, model: string)
    ensures AnyCarries(cs, field, model) <==> exists i :: 0 <= i < |cs| && Get(cs[i].data, field, model).Some?
    ensures AnyDiffers(local, cs, field, model) <==> exists i :: 0 <= i < |cs| && Differs(local, cs[i], field, model)
  {
    if cs != [] {
      var init := cs[..|cs| - 1];
      AnyFacts(local, init, field, model);
      assert forall i :: 0 <= i < |init| ==> init[i] == cs[i];
    }
  }

  /** What one channel shows in a cell, whether it carries a value, whether it differs. */
  method ShowValue(local: Data, c: Channel, field: string, model: string)
    returns (upstreamValue: Value, carries: bool, hasDifference: bool)
    ensures upstreamValue == Shown(local, c, field, model) && carries == Get(c.data, field, model).Some?
    ensures !Local(local, field, model).Null? ==> hasDifference == Differs(local, c, field, model)
  {
    var localValue := Local(local, field, model);
    var val := Get(c.data, field, model);
    upstreamValue, carries, hasDifference := Null, val.Some?, false;
    if val.Some? {
      upstreamValue := val.value;
      if !localValue.Null? && !ValuesEqual(localValue, upstreamValue) {
        hasDifference := true;
      } else if ValuesEqual(localValue, upstreamValue) {
        upstreamValue := SAME;
      }
    }
    if upstreamValue.Null? && localValue.Null? { upstreamValue := SAME; }
    if localValue.Null? && !upstreamValue.Null? && upstreamValue != SAME { hasDifference := true; }
  }

  method LookupTrust(confidence: map<string, map<string, bool>>, c: Channel, models: set<string>, model: string)
    returns (trusted: bool)
    requires Confident(confidence, c, models) && model in models
    ensures trusted == Trusted(c, model)
  {
    return confidence[c.name][model];
  }

  lemma OneChannelMore(local: Data, cs: seq<Channel>, i: nat, field: string, model: string)
    requires i < |cs|
    ensures ShownMap(local, cs[..i + 1], field, model) ==
            ShownMap(local, cs[..i], field, model)[cs[i].name := Shown(local, cs[i], field, model)]
    ensures TrustMap(cs[..i + 1], model) == TrustMap(cs[..i], model)[cs[i].name := Trusted(cs[i], model)]
    ensures AnyCarries(cs[..i + 1], field, model) ==
            (AnyCarries(cs[..i], field, model) || Get(cs[i].data, field, model).Some?)
    ensures AnyDiffers(local, cs[..i + 1], field, model) ==
            (AnyDiffers(local, cs[..i], field, model) || Differs(local, cs[i], field, model))
  {
    assert cs[..i + 1][..i] == cs[..i];
  }

  /** The loop over the channels of one cell. */
  method FillCell(local: Data, cs: seq<Channel>, confidence: map<string, map<string, bool>>, models: set<string>,
                  field: string, model: string)
    returns (item: Item, hasUpstreamValue: bool, hasDifference: bool)
    requires model in models && forall i :: 0 <= i < |cs| ==> Confident(confidence, cs[i], models)
    ensures item == Item(Local(local, field, model), ShownMap(local, cs, field, model), TrustMap(cs, model))
    ensures hasUpstreamValue <==> AnyCarries(cs, field, model)
    ensures !Local(local, field, model).Null? ==> (hasDifference <==> AnyDiffers(local, cs, field, model))
  {
    var localValue := Local(local, field, model);
    item := Item(localValue, map[], map[]);
    hasUpstreamValue, hasDifference := false, false;
    for i := 0 to |cs|
      invariant item == Item(localValue, ShownMap(local, cs[..i], field, model), TrustMap(cs[..i], model))
      invariant hasUpstreamValue <==> AnyCarries(cs[..i], field, model)
      invariant !localValue.Null? ==> (hasDifference <==> AnyDiffers(local, cs[..i], field, model))
    {
      var c := cs[i];
      var upstreamValue, carries, differs := ShowValue(local, c, field, model);
      var trusted := LookupTrust(confidence, c, models, model);
      OneChannelMore(local, cs, i, field, model);
      hasUpstreamValue := hasUpstreamValue || carries;
      hasDifference := hasDifference || differs;
      item := Item(localValue, item.upstreams[c.name := upstreamValue], item.confidence[c.name := trusted]);
    }
    assert cs[..|cs|] == cs;
  }

  /** One cell: what every channel shows, whether any carries a value, whether any differs. */
  method BuildCell(local: Data, cs: seq<Channel>, confidence: map<string, map<string, bool>>, models: set<string>,
                   field: string, model: string)
    returns (item: Item, shouldInclude: bool)
    requires DistinctNames(cs) && model in models
    requires forall i :: 0 <= i < |cs| ==> Confident(confidence, cs[i], models)
    ensures Faithful(item, local, cs, Names(cs), field, model)
    ensures shouldInclude <==> Changed(local, cs, field, model)
  {
    var hasUpstreamValue, hasDifference;
    item, hasUpstreamValue, hasDifference := FillCell(local, cs, confidence, models, field, model);
    MapsAreFaithful(local, cs, field, model);
    AnyFacts(local, cs, field, model);
    shouldInclude := if !item.current.Null? then hasDifference else hasUpstreamValue;
  }

  /** What the channels show, by name; a later channel of the same name would win. */
  function ShownMap(local: Data, cs: seq<Channel>, field: string, model: string): map<string, Value> {
    if cs == [] then map[] else
    ShownMap(local, cs[..|cs| - 1], field, model)[cs[|cs| - 1].name := Shown(local, cs[|cs| - 1], field, model)]
  }

  function TrustMap(cs: seq<Channel>, model: string): map<string, bool> {
    if cs == [] then map[] else
    TrustMap(cs[..|cs| - 1], model)[cs[|cs| - 1].name := Trusted(cs[|cs| - 1], model)]
  }

  lemma {:induction false} MapsNameAll(local: Data, cs: seq<Channel>, field: string, model: string)
    ensures ShownMap(local, cs, field, model).Keys == TrustMap(cs, model).Keys == Names(cs)
  {
    if cs != [] {
      var n := |cs| - 1;
      MapsNameAll(local, cs[..n], field, model);
      NamesSnoc(cs, n);
      assert cs[..n + 1] == cs;
    }
  }

  lemma {:induction false} MapsAt(local: Data, cs: seq<Channel>, field: string, model: string, i: nat)
    requires DistinctNames(cs) && i < |cs|
    ensures var name, shown, trust := cs[i].name, ShownMap(local, cs, field, model), TrustMap(cs, model);
      && name in shown && shown[name] == Shown(local, cs[i], field, model)
      && name in trust && trust[name] == Trusted(cs[i], model)
  {
    var n := |cs| - 1;
    if i < n { MapsAt(local, cs[..n], field, model, i); }
  }

  /** With distinct names the maps list every channel with its own value. */
  lemma {:induction false} MapsAreFaithful(local: Data, cs: seq<Channel>, field: string, model: string)
    requires DistinctNames(cs)
    ensures Faithful(Item(Local(local, field, model), ShownMap(local, cs, field, model), TrustMap(cs, model)),
                     local, cs, Names(cs), field, model)
  {
    MapsNameAll(local, cs, field, model);
    forall i | 0 <= i < |cs|
      ensures ShownMap(local, cs, field, model)[cs[i].name] == Shown(local, cs[i], field, model)
      ensures TrustMap(cs, model)[cs[i].name] == Trusted(cs[i], model)
    {
      MapsAt(local, cs, field, model, i);
    }
  }

  lemma NamesSnoc(cs: seq<Channel>, i: nat)
    requires i < |cs|
    ensures Names(cs[..i + 1]) == Names(cs[..i]) + {cs[i].name}
    ensures forall j :: 0 <= j < i ==> cs[j].name in Names(cs[..i])
  {
    var a, b := cs[..i + 1], cs[..i];
    forall x ensures x in Names(a) <==> x in Names(b) + {cs[i].name} {
      if x in Names(b) { var j :| 0 <= j < |b| && b[j].name == x; assert a[j].name == x; }
      if x == cs[i].name { assert a[i].name == x; }
    }
    forall j | 0 <= j < i ensures cs[j].name in Names(b) { assert b[j].name == cs[j].name; }
  }

  /** The state after the first pass. */
  ghost predicate Raw(raw: Differences, local: Data, cs: seq<Channel>, fields: seq<string>) {
    && (forall f, m :: Has(raw, f, m) <==> f in fields && Changed(local, cs, f, m))
    && (forall f, m :: Has(raw, f, m) ==> Faithful(raw[m][f], local, cs, Names(cs), f, m))
  }

  /** A finished row holds exactly the changed cells of its model. */
  ghost predicate RowDone(row: map<string, Item>, local: Data, cs: seq<Channel>, m: string, fields: seq<string>) {
    && (forall f :: f in row <==> f in fields && Changed(local, cs, f, m))
    && (forall f :: f in row ==> Faithful(row[f], local, cs, Names(cs), f, m))
  }

  /** A model without changed cells has no row. */
  ghost predicate Placed(raw: Differences, local: Data, cs: seq<Channel>, m: string, fields: seq<string>) {
    if m in raw then RowDone(raw[m], local, cs, m, fields) else RowDone(map[], local, cs, m, fields)
  }

  method FirstPassRow(local: Data, cs: seq<Channel>, confidence: map<string, map<string, bool>>, models: set<string>,
                      model: string, fields: seq<string>)
    returns (row: map<string, Item>)
    requires DistinctNames(cs) && model in models
    requires forall i :: 0 <= i < |cs| ==> Confident(confidence, cs[i], models)
    ensures RowDone(row, local, cs, model, fields)
  {
    row := map[];
    for i := 0 to |fields|
      invariant forall f :: f in row <==> f in fields[..i] && Changed(local, cs, f, model)
      invariant forall f :: f in row ==> Faithful(row[f], local, cs, Names(cs), f, model)
    {
      var item, shouldInclude := BuildCell(local, cs, confidence, models, fields[i], model);
      assert fields[..i + 1] == fields[..i] + [fields[i]];
      if shouldInclude { row := row[fields[i] := item]; }
    }
    assert fields[..|fields|] == fields;
  }

  method FirstPass(local: Data, cs: seq<Channel>, confidence: map<string, map<string, bool>>, models: set<string>,
                   fields: seq<string>)
    returns (raw: Differences)
    requires DistinctNames(cs) && Covers(models, local, fields)
    requires forall i :: 0 <= i < |cs| ==> Covers(models, cs[i].data, fields) && Confident(confidence, cs[i], models)
    ensures Raw(raw, local, cs, fields)
  {
    raw := map[];
    var pending := models;
    while pending != {}
      invariant pending <= models && raw.Keys <= models - pending
      invariant forall m :: m in models && m !in pending ==> Placed(raw, local, cs, m, fields)
      decreases pending
    {
      var model :| model in pending;
      ghost var before := raw;
      var row := FirstPassRow(local, cs, confidence, models, model, fields);
      if row != map[] { raw := raw[model := row]; }
      pending := pending - {model};
      assert Placed(raw, local, cs, model, fields);
      forall m | m in models && m !in pending ensures Placed(raw, local, cs, m, fields) {
        if m != model { assert Placed(before, local, cs, m, fields); }
      }
    }
    RowsMakeRaw(local, cs, models, raw, fields);
  }

  lemma RowsMakeRaw(local: Data, cs: seq<Channel>, models: set<string>, raw: Differences, fields: seq<string>)
    requires Covers(models, local, fields) && forall i :: 0 <= i < |cs| ==> Covers(models, cs[i].data, fields)
    requires raw.Keys <= models && forall m :: m in models ==> Placed(raw, local, cs, m, fields)
    ensures Raw(raw, local, cs, fields)
  {
    forall f, m ensures Has(raw, f, m) <==> f in fields && Changed(local, cs, f, m)
      ensures Has(raw, f, m) ==> Faithful(raw[m][f], local, cs, Names(cs), f, m)
    {
      if f in fields && Changed(local, cs, f, m) { ChangedIsCovered(local, cs, models, f, m, fields); }
      if m in models { assert Placed(raw, local, cs, m, fields); }
    }
  }

  lemma ChangedIsCovered(local: Data, cs: seq<Channel>, models: set<string>,
                        field: string, model: string, fields: seq<string>)
    requires forall i :: 0 <= i < |cs| ==> Covers(models, cs[i].data, fields)
    requires field in fields && Changed(local, cs, field, model)
    ensures model in models
  {
    var i :| 0 <= i < |cs| && Get(cs[i].data, field, model).Some?;
    assert Covers(models, cs[i].data, fields);
  }

  // ---------- which channels still matter ----------

  method CollectListedRow(row: map<string, Item>) returns (names: set<string>)
    ensures forall n :: n in names <==> exists f :: f in row && n in row[f].upstreams && Ordinary(row[f].upstreams[n])
  {
    names := {};
    var pending := row.Keys;
    while pending != {}
      invariant pending <= row.Keys
      invariant forall n :: n in names <==>
                  exists f :: f in row && f !in pending && n in row[f].upstreams && Ordinary(row[f].upstreams[n])
      decreases pending
    {
      var field :| field in pending;
      var values := row[field].upstreams;
      names := names + set n | n in values && Ordinary(values[n]);
      pending := pending - {field};
    }
  }

  method CollectListed(raw: Differences) returns (names: set<string>)
    ensures forall n :: n in names <==>
              exists f, m :: Has(raw, f, m) && n in raw[m][f].upstreams && Ordinary(raw[m][f].upstreams[n])
  {
    names := {};
    var pending := raw.Keys;
    while pending != {}
      invariant pending <= raw.Keys
      invariant forall n :: n in names <==>
                  exists f, m :: Has(raw, f, m) && m !in pending &&
                    n in raw[m][f].upstreams && Ordinary(raw[m][f].upstreams[n])
      decreases pending
    {
      var model :| model in pending;
      var found := CollectListedRow(raw[model]);
      forall n ensures n in found <==>
        exists f :: Has(raw, f, model) && n in raw[model][f].upstreams && Ordinary(raw[model][f].upstreams[n]) { }
      names := names + found;
      pending := pending - {model};
    }
  }

  lemma ListedIsListedNames(local: Data, cs: seq<Channel>, raw: Differences, names: set<string>)
    requires DistinctNames(cs) && Raw(raw, local, cs, FIELDS)
    requires forall n :: n in names <==>
               exists f, m :: Has(raw, f, m) && n in raw[m][f].upstreams && Ordinary(raw[m][f].upstreams[n])
    ensures names == ListedNames(local, cs)
  {
    forall n | n in names ensures n in ListedNames(local, cs) {
      var f, m :| Has(raw, f, m) && n in raw[m][f].upstreams && Ordinary(raw[m][f].upstreams[n]);
      assert Faithful(raw[m][f], local, cs, Names(cs), f, m);
      var i :| 0 <= i < |cs| && cs[i].name == n;
      assert Ordinary(Shown(local, cs[i], f, m));
    }
    forall n | n in ListedNames(local, cs) ensures n in names {
      var i :| 0 <= i < |cs| && Listed(local, cs, cs[i]) && cs[i].name == n;
      var f, m :| Included(local, cs, f, m) && Ordinary(Shown(local, cs[i], f, m));
      assert Has(raw, f, m) && Faithful(raw[m][f], local, cs, Names(cs), f, m);
      assert cs[i].name in Names(cs);
    }
  }

  // ---------- pruning ----------

  function Restrict(item: Item, listed: set<string>): Item {
    Item(item.current,
         map n | n in item.upstreams && n in listed :: item.upstreams[n],
         map n | n in item.confidence && n in listed :: item.confidence[n])
  }

  ghost predicate Survives(item: Item, listed: set<string>) {
    exists n :: n in item.upstreams && n in listed && item.upstreams[n] != SAME
  }

  /** Deleting the channels without any difference from one item, name by name. */
  method PruneItem(item: Item, listed: set<string>) returns (kept: Item, allSame: bool)
    ensures kept == Restrict(item, listed) && (allSame <==> !Survives(item, listed))
  {
    var upstreams, confidence := item.upstreams, item.confidence;
    var pending := item.upstreams.Keys + item.confidence.Keys;
    allSame := true;
    while pending != {}
      invariant pending <= item.upstreams.Keys + item.confidence.Keys
      invariant upstreams.Keys <= item.upstreams.Keys && confidence.Keys <= item.confidence.Keys
      invariant forall n :: n in upstreams ==> upstreams[n] == item.upstreams[n]
      invariant forall n :: n in confidence ==> confidence[n] == item.confidence[n]
      invariant forall n :: n in item.upstreams ==> (n in upstreams <==> n in pending || n in listed)
      invariant forall n :: n in item.confidence ==> (n in confidence <==> n in pending || n in listed)
      invariant allSame <==> forall n :: n in item.upstreams && n !in pending && n in listed ==>
            item.upstreams[n] == SAME
      decreases pending
    {
      var name :| name in pending;
      if name !in listed {
        upstreams := upstreams - {name};
        confidence := confidence - {name};
      } else if name in item.upstreams && item.upstreams[name] != SAME {
        allSame := false;
      }
      pending := pending - {name};
    }
    kept := Item(item.current, upstreams, confidence);
    assert upstreams == Restrict(item, listed).upstreams;
    assert confidence == Restrict(item, listed).confidence;
  }

  method PruneRow(row: map<string, Item>, listed: set<string>) returns (kept: map<string, Item>)
    ensures forall f :: f in kept <==> f in row && Survives(row[f], listed)
    ensures forall f :: f in kept ==> kept[f] == Restrict(row[f], listed)
  {
    kept := row;
    var pending := row.Keys;
    while pending != {}
      invariant pending <= kept.Keys <= row.Keys
      invariant forall f :: f in pending ==> kept[f] == row[f]
      invariant forall f :: f in row && f !in pending ==> (f in kept <==> Survives(row[f], listed))
      invariant forall f :: f in kept && f !in pending ==> kept[f] == Restrict(row[f], listed)
      decreases pending
    {
      var field :| field in pending;
      var item, allSame := PruneItem(row[field], listed);
      if allSame { kept := kept - {field}; } else { kept := kept[field := item]; }
      pending := pending - {field};
    }
  }

  /** What pruning leaves of one model's row. */
  ghost predicate RowPruned(d: Differences, raw: Differences, listed: set<string>, m: string) {
    && (forall f :: Has(d, f, m) <==> Has(raw, f, m) && Survives(raw[m][f], listed))
    && (forall f :: Has(d, f, m) ==> Has(raw, f, m) && d[m][f] == Restrict(raw[m][f], listed))
    && (m in d ==> d[m] != map[])
  }

  method Prune(raw: Differences, listed: set<string>) returns (d: Differences)
    ensures forall m :: RowPruned(d, raw, listed, m)
  {
    d := raw;
    var pending := raw.Keys;
    while pending != {}
      invariant pending <= d.Keys <= raw.Keys
      invariant forall m :: m in pending ==> d[m] == raw[m]
      invariant forall m :: m !in pending ==> RowPruned(d, raw, listed, m)
      decreases pending
    {
      var model :| model in pending;
      ghost var before := d;
      var row := PruneRow(raw[model], listed);
      if row == map[] { d := d - {model}; } else { d := d[model := row]; }
      pending := pending - {model};
      forall m | m !in pending ensures RowPruned(d, raw, listed, m) {
        if m != model { assert RowPruned(before, raw, listed, m); }
      }
    }
  }

  lemma ListedByName(local: Data, cs: seq<Channel>, i: nat)
    requires DistinctNames(cs) && i < |cs|
    ensures cs[i].name in ListedNames(local, cs) <==> Listed(local, cs, cs[i])
    ensures cs[i].name in Names(cs)
  {
    if cs[i].name in ListedNames(local, cs) {
      var j :| 0 <= j < |cs| && Listed(local, cs, cs[j]) && cs[j].name == cs[i].name;
    }
  }

  lemma RestrictedIsFaithful(local: Data, cs: seq<Channel>, item: Item, listed: set<string>,
                             field: string, model: string)
    requires Faithful(item, local, cs, Names(cs), field, model) && listed <= Names(cs)
    ensures Faithful(Restrict(item, listed), local, cs, listed, field, model)
  {
    forall i | 0 <= i < |cs| && cs[i].name in listed
      ensures Restrict(item, listed).upstreams[cs[i].name] == Shown(local, cs[i], field, model)
      ensures Restrict(item, listed).confidence[cs[i].name] == Trusted(cs[i], model)
    {
      assert cs[i].name in Names(cs);
    }
  }

  /** A cell survives pruning exactly when it is reported. */
  lemma SurvivesIffReported(local: Data, cs: seq<Channel>, item: Item, field: string, model: string)
    requires DistinctNames(cs) && Included(local, cs, field, model)
    requires Faithful(item, local, cs, Names(cs), field, model)
    ensures Survives(item, ListedNames(local, cs)) <==> Reported(local, cs, field, model)
  {
    var listed := ListedNames(local, cs);
    if n :| n in item.upstreams && n in listed && item.upstreams[n] != SAME {
      var i :| 0 <= i < |cs| && cs[i].name == n;
      ListedByName(local, cs, i);
    }
    if i :| 0 <= i < |cs| && Listed(local, cs, cs[i]) && Shown(local, cs[i], field, model) != SAME {
      ListedByName(local, cs, i);
      assert item.upstreams[cs[i].name] == Shown(local, cs[i], field, model);
    }
  }

  lemma PrunedCell(local: Data, cs: seq<Channel>, raw: Differences, field: string, model: string)
    requires DistinctNames(cs) && Raw(raw, local, cs, FIELDS)
    ensures var listed := ListedNames(local, cs);
      && (Has(raw, field, model) && Survives(raw[model][field], listed) <==> Reported(local, cs, field, model))
      && (Has(raw, field, model) ==> Faithful(Restrict(raw[model][field], listed), local, cs, listed, field, model))
  {
    if Has(raw, field, model) {
      assert Faithful(raw[model][field], local, cs, Names(cs), field, model);
      SurvivesIffReported(local, cs, raw[model][field], field, model);
      assert ListedNames(local, cs) <= Names(cs);
      RestrictedIsFaithful(local, cs, raw[model][field], ListedNames(local, cs), field, model);
    }
  }
}

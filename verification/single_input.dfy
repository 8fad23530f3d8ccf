/** The single-record normalizer (`prepare_single_input`, predictor_service.py
    lines 330-382). It is fail-fast: the first field that is absent, not a
    number or not a known label stops it with an error naming that field. */
module SingleInput {
  import opened Wrappers
  import opened Values
  import opened Schema

  /** The validation errors `prepare_single_input` raises, one per `raise`. */
  datatype InputError =
    | MissingNumeric(field: string)
    | NotNumeric(field: string, value: Raw)
    | MissingCategorical(field: string)
    | NoCodec(mapped: string, field: string)
    | InvalidLabel(field: string, value: Raw, allowed: seq<string>)
    | MissingFeatures(features: seq<string>)
    | NaNRemains

  datatype FieldKind = NumericKind | CategoricalKind

  /** The codec for a categorical field: looked up by its mapped name first,
      then by its raw name (lines 350-357). */
  function CodecFor(field: string): Option<Codec> {
    var mapped := MappedName(field);
    if HasCodec(mapped) then Some(CategoryMapping[mapped])
    else if HasCodec(field) then Some(CategoryMapping[field])
    else None
  }

  /** One numeric field (lines 335-342): present, and `float` accepts it. */
  function NumericValue(data: Record, parse: Parser, field: string): Result<Float, InputError> {
    match Get(data, field)
    case None => Failure(MissingNumeric(field))
    case Some(v) =>
      match ToFloat(v, parse)
      case None => Failure(NotNumeric(field, v))
      case Some(x) => Success(x)
  }

  /** One categorical field (lines 346-362): present, and a label of its codec. */
  function CategoricalValue(data: Record, field: string): Result<Float, InputError> {
    match Get(data, field)
    case None => Failure(MissingCategorical(field))
    case Some(v) =>
      match CodecFor(field)
      case None => Failure(NoCodec(MappedName(field), field))
      case Some(c) =>
        if v.Text? && v.text in c.code then Success(Finite(c.code[v.text] as real))
        else Failure(InvalidLabel(field, v, c.labels))
  }

  function FieldValue(data: Record, parse: Parser, kind: FieldKind, field: string): Result<Float, InputError> {
    match kind
    case NumericKind => NumericValue(data, parse, field)
    case CategoricalKind => CategoricalValue(data, field)
  }

  /** One validation loop: each field in turn is converted and stored under its
      mapped name in `acc`; the first failing field stops the loop. */
  function Collect(data: Record, parse: Parser, kind: FieldKind, fields: seq<string>, acc: map<string, Float>)
    : Result<map<string, Float>, InputError>
    decreases |fields|
  {
    if fields == [] then Success(acc)
    else
      match FieldValue(data, parse, kind, fields[0])
      case Failure(e) => Failure(e)
      case Success(x) => Collect(data, parse, kind, fields[1..], acc[MappedName(fields[0]) := x])
  }

  /** The loop succeeds exactly when every field converts. */
  lemma {:induction false} CollectSucceeds(data: Record, parse: Parser, kind: FieldKind, fields: seq<string>, acc: map<string, Float>)
    ensures Collect(data, parse, kind, fields, acc).Success?
      <==> forall i :: 0 <= i < |fields| ==> FieldValue(data, parse, kind, fields[i]).Success?
    decreases |fields|
  {
    if fields != [] {
      var v := FieldValue(data, parse, kind, fields[0]);
      if v.Success? {
        CollectSucceeds(data, parse, kind, fields[1..], acc[MappedName(fields[0]) := v.value]);
        assert forall i :: 1 <= i < |fields| ==> fields[i] == fields[1..][i - 1];
      }
    }
  }

  /** A failing loop reports the error of the first field that does not convert. */
  lemma {:induction false} CollectFailsFirst(data: Record, parse: Parser, kind: FieldKind, fields: seq<string>, acc: map<string, Float>)
    requires Collect(data, parse, kind, fields, acc).Failure?
    ensures exists i :: (0 <= i < |fields|
      && FieldValue(data, parse, kind, fields[i]) == Failure(Collect(data, parse, kind, fields, acc).error)
      && forall j :: 0 <= j < i ==> FieldValue(data, parse, kind, fields[j]).Success?)
    decreases |fields|
  {
    var v := FieldValue(data, parse, kind, fields[0]);
    if v.Failure? {
      assert FieldValue(data, parse, kind, fields[0]) == Failure(Collect(data, parse, kind, fields, acc).error);
    } else {
      var rest := fields[1..];
      CollectFailsFirst(data, parse, kind, rest, acc[MappedName(fields[0]) := v.value]);
      var i :| 0 <= i < |rest|
        && FieldValue(data, parse, kind, rest[i]) == Failure(Collect(data, parse, kind, fields, acc).error)
        && forall j :: 0 <= j < i ==> FieldValue(data, parse, kind, rest[j]).Success?;
      assert fields[i + 1] == rest[i];
      assert forall j :: 1 <= j < i + 1 ==> fields[j] == rest[j - 1];
    }
  }

  /** A successful loop adds exactly the renamed fields to `acc` and leaves
      every other entry as it was. */
  lemma {:induction false} CollectKeys(data: Record, parse: Parser, kind: FieldKind, fields: seq<string>, acc: map<string, Float>)
    requires Collect(data, parse, kind, fields, acc).Success?
    requires MappedDistinct(fields)
    ensures Collect(data, parse, kind, fields, acc).value.Keys == acc.Keys + MappedSet(fields)
    ensures forall k :: k in acc && k !in MappedSet(fields) ==> Collect(data, parse, kind, fields, acc).value[k] == acc[k]
    decreases |fields|
  {
    if fields != [] {
      var x := FieldValue(data, parse, kind, fields[0]).value;
      MappedDistinctTail(fields);
      CollectKeys(data, parse, kind, fields[1..], acc[MappedName(fields[0]) := x]);
    }
  }

  /** A successful loop stores every field's value under its mapped name. */
  lemma {:induction false} CollectStores(data: Record, parse: Parser, kind: FieldKind, fields: seq<string>, acc: map<string, Float>)
    requires Collect(data, parse, kind, fields, acc).Success?
    requires MappedDistinct(fields)
    ensures Collect(data, parse, kind, fields, acc).value.Keys == acc.Keys + MappedSet(fields)
    ensures forall i :: 0 <= i < |fields| ==>
      && FieldValue(data, parse, kind, fields[i]).Success?
      && Collect(data, parse, kind, fields, acc).value[MappedName(fields[i])] == FieldValue(data, parse, kind, fields[i]).value
    decreases |fields|
  {
    CollectKeys(data, parse, kind, fields, acc);
    if fields != [] {
      var x := FieldValue(data, parse, kind, fields[0]).value;
      var rest := fields[1..];
      var acc' := acc[MappedName(fields[0]) := x];
      MappedDistinctTail(fields);
      CollectKeys(data, parse, kind, rest, acc');
      CollectStores(data, parse, kind, rest, acc');
      forall i | 0 <= i < |fields|
        ensures FieldValue(data, parse, kind, fields[i]).Success?
        ensures Collect(data, parse, kind, fields, acc).value[MappedName(fields[i])] == FieldValue(data, parse, kind, fields[i]).value
      {
        if i > 0 {
          assert fields[i] == rest[i - 1];
        }
      }
    }
  }

  /** `[f for f in features if f not in m]`. */
  function MissingFrom(m: map<string, Float>, features: seq<string>): (r: seq<string>)
    ensures forall f :: f in r <==> f in features && f !in m
    ensures r == [] <==> forall i :: 0 <= i < |features| ==> features[i] in m
  {
    if features == [] then []
    else (if features[0] in m then [] else [features[0]]) + MissingFrom(m, features[1..])
  }

  /** `prepare_single_input`: validate the numeric fields, then the categorical
      ones, reorder to ExpectedFeatures and reject a remaining NaN. The result is
      a one-row feature table. */
  function PrepareSingleInput(data: Record, parse: Parser): (r: Result<FeatureTable, InputError>)
  {
    var numeric :- Collect(data, parse, NumericKind, NumericFields, map[]);
    var mapped :- Collect(data, parse, CategoricalKind, CategoricalFields, numeric);
    var missing := MissingFrom(mapped, ExpectedFeatures);
    if missing != [] then Failure(MissingFeatures(missing))
    else
      var row := Reorder(mapped, ExpectedFeatures);
      if HasNaN(row) then Failure(NaNRemains)
      else Success(FeatureTable(ExpectedFeatures, [Finites(row)]))
  }

  /** `input_df[features]`: the values in the given column order. */
  function Reorder(m: map<string, Float>, features: seq<string>): (row: seq<Float>)
    requires forall f :: f in features ==> f in m
    ensures |row| == |features|
    ensures forall i :: 0 <= i < |features| ==> row[i] == m[features[i]]
  {
    seq(|features|, i requires 0 <= i < |features| => m[features[i]])
  }

  /** `isnull().any().any()` on one row. */
  predicate HasNaN(row: seq<Float>) {
    exists i :: 0 <= i < |row| && row[i].NaN?
  }

  /** The values of a NaN-free row. */
  function Finites(row: seq<Float>): (r: seq<real>)
    requires !HasNaN(row)
    ensures |r| == |row|
    ensures forall i :: 0 <= i < |row| ==> row[i] == Finite(r[i])
  {
    seq(|row|, i requires 0 <= i < |row| => row[i].value)
  }

  // ---------------------------------------------------------------------------
  // Reference definitions, feature by feature

  /** What the model sees in slot `feature` when the record is acceptable:
      the raw field it is read from, parsed to a finite number or encoded by
      the feature's codec. None when that raw field cannot supply a value. */
  function ExpectedSlot(data: Record, parse: Parser, feature: string): Option<real> {
    match Get(data, SourceField(feature))
    case None => None
    case Some(v) =>
      if feature in CategoryMapping then
        (if v.Text? && v.text in CategoryMapping[feature].code
         then Some(CategoryMapping[feature].code[v.text] as real) else None)
      else
        (match ToFloat(v, parse)
         case Some(Finite(x)) => Some(x)
         case _ => None)
  }

  /** Every model feature can be filled from the record. */
  predicate Acceptable(data: Record, parse: Parser) {
    forall i :: 0 <= i < |ExpectedFeatures| ==> ExpectedSlot(data, parse, ExpectedFeatures[i]).Some?
  }

  /** The error names something that is really wrong with the record. */
  predicate Genuine(data: Record, parse: Parser, e: InputError) {
    match e
    case MissingNumeric(f) => f in NumericFields && Get(data, f).None?
    case NotNumeric(f, v) => f in NumericFields && Get(data, f) == Some(v) && ToFloat(v, parse).None?
    case MissingCategorical(f) => f in CategoricalFields && Get(data, f).None?
    case InvalidLabel(f, v, allowed) =>
      && f in CategoricalFields && Get(data, f) == Some(v)
      && MappedName(f) in CategoryMapping
      && allowed == CategoryMapping[MappedName(f)].labels
      && !(v.Text? && v.text in CategoryMapping[MappedName(f)].code)
    case NaNRemains =>
      exists f :: f in NumericFields && Get(data, f).Some? && ToFloat(Get(data, f).value, parse) == Some(NaN)
    case NoCodec(_, _) => false
    case MissingFeatures(_) => false
  }

  // ---------------------------------------------------------------------------
  // Properties of PrepareSingleInput

  /** A numeric field supplies a finite value exactly when the feature it is
      renamed to has a slot value, and then the two agree. */
  lemma NumericFieldSlot(data: Record, parse: Parser, f: string)
    requires f in NumericFields
    ensures ExpectedSlot(data, parse, MappedName(f)).Some?
      <==> NumericValue(data, parse, f).Success? && NumericValue(data, parse, f).value.Finite?
    ensures ExpectedSlot(data, parse, MappedName(f)).Some? ==>
      NumericValue(data, parse, f).value == Finite(ExpectedSlot(data, parse, MappedName(f)).value)
  {
    NumericFieldFacts(f);
  }

  /** A categorical field converts exactly when the feature it is renamed to
      has a slot value, and then the two agree. */
  lemma CategoricalFieldSlot(data: Record, parse: Parser, f: string)
    requires f in CategoricalFields
    ensures ExpectedSlot(data, parse, MappedName(f)).Some? <==> CategoricalValue(data, f).Success?
    ensures ExpectedSlot(data, parse, MappedName(f)).Some? ==>
      CategoricalValue(data, f).value == Finite(ExpectedSlot(data, parse, MappedName(f)).value)
  {
    var g := MappedName(f);
    CategoricalFieldFacts(f);
    var c := CategoryMapping[g];
    assert CodecFor(f) == Some(c);
    assert ExpectedSlot(data, parse, g) == CodedSlot(Get(data, f), c);
  }

  /** The slot of a categorical feature whose raw cell is `cell`. */
  function CodedSlot(cell: Option<Raw>, c: Codec): Option<real> {
    match cell
    case None => None
    case Some(v) => if v.Text? && v.text in c.code then Some(c.code[v.text] as real) else None
  }

  /** The conversion of the raw field a feature is read from. */
  function SourceValue(data: Record, parse: Parser, g: string): Result<Float, InputError> {
    var src := SourceField(g);
    if src in NumericFields then NumericValue(data, parse, src) else CategoricalValue(data, src)
  }

  /** After both loops succeed every feature has an entry, and the entry is
      finite exactly when the feature's slot has a value, which it then holds. */
  lemma CollectedFeatures(data: Record, parse: Parser)
    requires Collect(data, parse, NumericKind, NumericFields, map[]).Success?
    requires Collect(data, parse, CategoricalKind, CategoricalFields,
                     Collect(data, parse, NumericKind, NumericFields, map[]).value).Success?
    ensures var mapped := Collect(data, parse, CategoricalKind, CategoricalFields,
                                  Collect(data, parse, NumericKind, NumericFields, map[]).value).value;
      forall i :: 0 <= i < |ExpectedFeatures| ==>
        && ExpectedFeatures[i] in mapped
        && SourceValue(data, parse, ExpectedFeatures[i]) == Success(mapped[ExpectedFeatures[i]])
        && (ExpectedSlot(data, parse, ExpectedFeatures[i]).Some? <==> mapped[ExpectedFeatures[i]].Finite?)
        && (ExpectedSlot(data, parse, ExpectedFeatures[i]).Some? ==>
              mapped[ExpectedFeatures[i]] == Finite(ExpectedSlot(data, parse, ExpectedFeatures[i]).value))
  {
    var numeric := Collect(data, parse, NumericKind, NumericFields, map[]).value;
    var mapped := Collect(data, parse, CategoricalKind, CategoricalFields, numeric).value;
    forall i | 0 <= i < |ExpectedFeatures|
      ensures ExpectedFeatures[i] in mapped
      ensures SourceValue(data, parse, ExpectedFeatures[i]) == Success(mapped[ExpectedFeatures[i]])
      ensures ExpectedSlot(data, parse, ExpectedFeatures[i]).Some? <==> mapped[ExpectedFeatures[i]].Finite?
      ensures ExpectedSlot(data, parse, ExpectedFeatures[i]).Some? ==>
        mapped[ExpectedFeatures[i]] == Finite(ExpectedSlot(data, parse, ExpectedFeatures[i]).value)
    {
      CollectedFeature(data, parse, ExpectedFeatures[i]);
    }
  }

  lemma CollectedFeature(data: Record, parse: Parser, g: string)
    requires g in ExpectedFeatures
    requires Collect(data, parse, NumericKind, NumericFields, map[]).Success?
    requires Collect(data, parse, CategoricalKind, CategoricalFields,
                     Collect(data, parse, NumericKind, NumericFields, map[]).value).Success?
    ensures var mapped := Collect(data, parse, CategoricalKind, CategoricalFields,
                                  Collect(data, parse, NumericKind, NumericFields, map[]).value).value;
      && g in mapped
      && SourceValue(data, parse, g) == Success(mapped[g])
      && (ExpectedSlot(data, parse, g).Some? <==> mapped[g].Finite?)
      && (ExpectedSlot(data, parse, g).Some? ==> mapped[g] == Finite(ExpectedSlot(data, parse, g).value))
  {
    FeatureSources();
    FeatureRenaming();
    var src := SourceField(g);
    if src in NumericFields {
      CollectedNumeric(data, parse, src);
    } else {
      CollectedCategorical(data, parse, src);
    }
  }

  lemma CollectedNumeric(data: Record, parse: Parser, f: string)
    requires f in NumericFields
    requires Collect(data, parse, NumericKind, NumericFields, map[]).Success?
    requires Collect(data, parse, CategoricalKind, CategoricalFields,
                     Collect(data, parse, NumericKind, NumericFields, map[]).value).Success?
    ensures var mapped := Collect(data, parse, CategoricalKind, CategoricalFields,
                                  Collect(data, parse, NumericKind, NumericFields, map[]).value).value;
      var g := MappedName(f);
      && g in mapped
      && SourceValue(data, parse, g) == Success(mapped[g])
      && (ExpectedSlot(data, parse, g).Some? <==> mapped[g].Finite?)
      && (ExpectedSlot(data, parse, g).Some? ==> mapped[g] == Finite(ExpectedSlot(data, parse, g).value))
  {
    var numeric := Collect(data, parse, NumericKind, NumericFields, map[]).value;
    var g := MappedName(f);
    NumericFieldFacts(f);
    NumericMappedDistinct();
    CategoricalMappedDistinct();
    KindsMappedApart();
    CollectStores(data, parse, NumericKind, NumericFields, map[]);
    CollectKeys(data, parse, CategoricalKind, CategoricalFields, numeric);
    var j :| 0 <= j < |NumericFields| && NumericFields[j] == f;
    assert g !in MappedSet(CategoricalFields);
    NumericFieldSlot(data, parse, f);
  }

  lemma CollectedCategorical(data: Record, parse: Parser, f: string)
    requires f in CategoricalFields && f !in NumericFields
    requires Collect(data, parse, NumericKind, NumericFields, map[]).Success?
    requires Collect(data, parse, CategoricalKind, CategoricalFields,
                     Collect(data, parse, NumericKind, NumericFields, map[]).value).Success?
    ensures var mapped := Collect(data, parse, CategoricalKind, CategoricalFields,
                                  Collect(data, parse, NumericKind, NumericFields, map[]).value).value;
      var g := MappedName(f);
      && g in mapped
      && SourceValue(data, parse, g) == Success(mapped[g])
      && (ExpectedSlot(data, parse, g).Some? <==> mapped[g].Finite?)
      && (ExpectedSlot(data, parse, g).Some? ==> mapped[g] == Finite(ExpectedSlot(data, parse, g).value))
  {
    var numeric := Collect(data, parse, NumericKind, NumericFields, map[]).value;
    CategoricalFieldFacts(f);
    CategoricalMappedDistinct();
    CollectStores(data, parse, CategoricalKind, CategoricalFields, numeric);
    var j :| 0 <= j < |CategoricalFields| && CategoricalFields[j] == f;
    CategoricalFieldSlot(data, parse, f);
  }

  /** An acceptable record passes the numeric loop. */
  lemma AcceptableNumerics(data: Record, parse: Parser)
    requires Acceptable(data, parse)
    ensures Collect(data, parse, NumericKind, NumericFields, map[]).Success?
  {
    CollectSucceeds(data, parse, NumericKind, NumericFields, map[]);
    forall i | 0 <= i < |NumericFields|
      ensures FieldValue(data, parse, NumericKind, NumericFields[i]).Success?
    {
      AcceptableNumeric(data, parse, i);
    }
  }

  lemma AcceptableNumeric(data: Record, parse: Parser, i: int)
    requires Acceptable(data, parse)
    requires 0 <= i < |NumericFields|
    ensures FieldValue(data, parse, NumericKind, NumericFields[i]).Success?
  {
    NumericFieldsMapIntoFeatures();
    NumericFieldSlot(data, parse, NumericFields[i]);
    var k :| 0 <= k < |ExpectedFeatures| && ExpectedFeatures[k] == MappedName(NumericFields[i]);
  }

  /** An acceptable record passes the categorical loop, whatever it starts from. */
  lemma AcceptableCategoricals(data: Record, parse: Parser, acc: map<string, Float>)
    requires Acceptable(data, parse)
    ensures Collect(data, parse, CategoricalKind, CategoricalFields, acc).Success?
  {
    CollectSucceeds(data, parse, CategoricalKind, CategoricalFields, acc);
    forall i | 0 <= i < |CategoricalFields|
      ensures FieldValue(data, parse, CategoricalKind, CategoricalFields[i]).Success?
    {
      AcceptableCategorical(data, parse, i);
    }
  }

  lemma AcceptableCategorical(data: Record, parse: Parser, i: int)
    requires Acceptable(data, parse)
    requires 0 <= i < |CategoricalFields|
    ensures FieldValue(data, parse, CategoricalKind, CategoricalFields[i]).Success?
  {
    CategoricalFieldsMapIntoFeatures();
    CategoricalFieldSlot(data, parse, CategoricalFields[i]);
    var k :| 0 <= k < |ExpectedFeatures| && ExpectedFeatures[k] == MappedName(CategoricalFields[i]);
  }

  /** `prepare_single_input` succeeds exactly when every model feature can be
      filled from the record: every numeric field is present and parses to a
      finite number, every categorical field is present and a label of its codec. */
  lemma PrepareSucceedsIff(data: Record, parse: Parser)
    ensures PrepareSingleInput(data, parse).Success? <==> Acceptable(data, parse)
  {
    if Acceptable(data, parse) {
      AcceptableSucceeds(data, parse);
    } else {
      UnacceptableFails(data, parse);
    }
  }

  lemma AcceptableSucceeds(data: Record, parse: Parser)
    requires Acceptable(data, parse)
    ensures PrepareSingleInput(data, parse).Success?
  {
    AcceptableNumerics(data, parse);
    AcceptableCategoricals(data, parse, Collect(data, parse, NumericKind, NumericFields, map[]).value);
    CollectedFeatures(data, parse);
  }

  lemma UnacceptableFails(data: Record, parse: Parser)
    requires !Acceptable(data, parse)
    ensures PrepareSingleInput(data, parse).Failure?
  {
    var nr := Collect(data, parse, NumericKind, NumericFields, map[]);
    if nr.Success? {
      var cr := Collect(data, parse, CategoricalKind, CategoricalFields, nr.value);
      if cr.Success? {
        UnacceptableRowHasNaN(data, parse);
      }
    }
  }

  /** If both loops pass but the record is not acceptable, the assembled row
      is complete and holds a NaN. */
  lemma UnacceptableRowHasNaN(data: Record, parse: Parser)
    requires !Acceptable(data, parse)
    requires Collect(data, parse, NumericKind, NumericFields, map[]).Success?
    requires Collect(data, parse, CategoricalKind, CategoricalFields,
                     Collect(data, parse, NumericKind, NumericFields, map[]).value).Success?
    ensures var mapped := Collect(data, parse, CategoricalKind, CategoricalFields,
                                  Collect(data, parse, NumericKind, NumericFields, map[]).value).value;
      && MissingFrom(mapped, ExpectedFeatures) == []
      && HasNaN(Reorder(mapped, ExpectedFeatures))
  {
    var mapped := Collect(data, parse, CategoricalKind, CategoricalFields,
                          Collect(data, parse, NumericKind, NumericFields, map[]).value).value;
    CollectedFeatures(data, parse);
    var row := Reorder(mapped, ExpectedFeatures);
    var i :| 0 <= i < |ExpectedFeatures| && ExpectedSlot(data, parse, ExpectedFeatures[i]).None?;
    var g := ExpectedFeatures[i];
    assert !mapped[g].Finite?;
    assert row[i] == mapped[g];
  }

  /** On success the result is one row whose columns are the 17 model features
      in order; each slot holds the parsed number or the label's code of the
      raw field that feature is read from. */
  lemma PrepareRow(data: Record, parse: Parser)
    requires PrepareSingleInput(data, parse).Success?
    ensures var t := PrepareSingleInput(data, parse).value;
      && t.columns == ExpectedFeatures
      && |t.rows| == 1
      && |t.rows[0]| == |ExpectedFeatures|
      && forall i :: 0 <= i < |ExpectedFeatures| ==>
           ExpectedSlot(data, parse, ExpectedFeatures[i]) == Some(t.rows[0][i])
  {
    var mapped := Collect(data, parse, CategoricalKind, CategoricalFields,
                          Collect(data, parse, NumericKind, NumericFields, map[]).value).value;
    CollectedFeatures(data, parse);
    var row := Reorder(mapped, ExpectedFeatures);
    assert PrepareSingleInput(data, parse).value == FeatureTable(ExpectedFeatures, [Finites(row)]);
  }

  /** Every error names a field that really is absent, unparseable or not a
      label of its codec (listing that codec's labels), or reports a NaN some
      numeric field really produced; the codec and missing-feature errors
      never occur. */
  lemma PrepareErrorsGenuine(data: Record, parse: Parser)
    requires PrepareSingleInput(data, parse).Failure?
    ensures Genuine(data, parse, PrepareSingleInput(data, parse).error)
  {
    var nr := Collect(data, parse, NumericKind, NumericFields, map[]);
    if nr.Failure? {
      NumericErrorGenuine(data, parse);
    } else {
      var cr := Collect(data, parse, CategoricalKind, CategoricalFields, nr.value);
      if cr.Failure? {
        CategoricalErrorGenuine(data, parse, nr.value);
      } else {
        NaNErrorGenuine(data, parse);
      }
    }
  }

  lemma NumericErrorGenuine(data: Record, parse: Parser)
    requires Collect(data, parse, NumericKind, NumericFields, map[]).Failure?
    ensures Genuine(data, parse, Collect(data, parse, NumericKind, NumericFields, map[]).error)
  {
    CollectFailsFirst(data, parse, NumericKind, NumericFields, map[]);
  }

  lemma CategoricalErrorGenuine(data: Record, parse: Parser, acc: map<string, Float>)
    requires Collect(data, parse, CategoricalKind, CategoricalFields, acc).Failure?
    ensures Genuine(data, parse, Collect(data, parse, CategoricalKind, CategoricalFields, acc).error)
  {
    var e := Collect(data, parse, CategoricalKind, CategoricalFields, acc).error;
    CollectFailsFirst(data, parse, CategoricalKind, CategoricalFields, acc);
    var i :| 0 <= i < |CategoricalFields| && CategoricalValue(data, CategoricalFields[i]) == Failure(e);
    CategoricalValueGenuine(data, parse, CategoricalFields[i]);
  }

  lemma CategoricalValueGenuine(data: Record, parse: Parser, f: string)
    requires f in CategoricalFields
    requires CategoricalValue(data, f).Failure?
    ensures Genuine(data, parse, CategoricalValue(data, f).error)
  {
    CategoricalFieldsHaveCodecs();
    var c := CategoryMapping[MappedName(f)];
    assert CodecFor(f) == Some(c);
    match Get(data, f)
    case None =>
    case Some(v) =>
      assert CategoricalValue(data, f).error == InvalidLabel(f, v, c.labels);
  }

  lemma NaNErrorGenuine(data: Record, parse: Parser)
    requires Collect(data, parse, NumericKind, NumericFields, map[]).Success?
    requires Collect(data, parse, CategoricalKind, CategoricalFields,
                     Collect(data, parse, NumericKind, NumericFields, map[]).value).Success?
    requires PrepareSingleInput(data, parse).Failure?
    ensures PrepareSingleInput(data, parse).error == NaNRemains
    ensures Genuine(data, parse, NaNRemains)
  {
    CollectedComplete(data, parse);
    RowNaNGenuine(data, parse);
  }

  /** After both loops pass, no model feature is missing. */
  lemma CollectedComplete(data: Record, parse: Parser)
    requires Collect(data, parse, NumericKind, NumericFields, map[]).Success?
    requires Collect(data, parse, CategoricalKind, CategoricalFields,
                     Collect(data, parse, NumericKind, NumericFields, map[]).value).Success?
    ensures MissingFrom(Collect(data, parse, CategoricalKind, CategoricalFields,
                                Collect(data, parse, NumericKind, NumericFields, map[]).value).value,
                        ExpectedFeatures) == []
  {
    CollectedFeatures(data, parse);
  }

  /** A NaN in the complete assembled row is one a numeric field produced. */
  lemma RowNaNGenuine(data: Record, parse: Parser)
    requires Collect(data, parse, NumericKind, NumericFields, map[]).Success?
    requires Collect(data, parse, CategoricalKind, CategoricalFields,
                     Collect(data, parse, NumericKind, NumericFields, map[]).value).Success?
    requires var mapped := Collect(data, parse, CategoricalKind, CategoricalFields,
                                   Collect(data, parse, NumericKind, NumericFields, map[]).value).value;
      forall f :: f in ExpectedFeatures ==> f in mapped
    requires var mapped := Collect(data, parse, CategoricalKind, CategoricalFields,
                                   Collect(data, parse, NumericKind, NumericFields, map[]).value).value;
      HasNaN(Reorder(mapped, ExpectedFeatures))
    ensures Genuine(data, parse, NaNRemains)
  {
    var mapped := Collect(data, parse, CategoricalKind, CategoricalFields,
                          Collect(data, parse, NumericKind, NumericFields, map[]).value).value;
    CollectedFeatures(data, parse);
    var row := Reorder(mapped, ExpectedFeatures);
    var i :| 0 <= i < |row| && row[i].NaN?;
    assert SourceValue(data, parse, ExpectedFeatures[i]) == Success(row[i]);
    NaNSource(data, parse, ExpectedFeatures[i]);
  }

  /** A categorical field never converts to NaN. */
  lemma CodesAreFinite(data: Record, f: string)
    requires CategoricalValue(data, f).Success?
    ensures CategoricalValue(data, f).value.Finite?
  {
  }

  /** A NaN in the assembled row can only come from a numeric field. */
  lemma NaNSource(data: Record, parse: Parser, g: string)
    requires SourceValue(data, parse, g).Success? && SourceValue(data, parse, g).value.NaN?
    ensures Genuine(data, parse, NaNRemains)
  {
    var src := SourceField(g);
    if src in NumericFields {
      assert Get(data, src).Some? && ToFloat(Get(data, src).value, parse) == Some(NaN);
    } else {
      CodesAreFinite(data, src);
    }
  }

  /** Numeric fields are checked before categorical ones: if any numeric field
      is absent or unparseable, the error is about a numeric field. */
  lemma NumericCheckedFirst(data: Record, parse: Parser, f: string)
    requires f in NumericFields && NumericValue(data, parse, f).Failure?
    ensures PrepareSingleInput(data, parse).Failure?
    ensures PrepareSingleInput(data, parse).error.MissingNumeric? || PrepareSingleInput(data, parse).error.NotNumeric?
  {
    CollectSucceeds(data, parse, NumericKind, NumericFields, map[]);
    CollectFailsFirst(data, parse, NumericKind, NumericFields, map[]);
  }
}

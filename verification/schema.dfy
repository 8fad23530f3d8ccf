/** The fixed feature schema of the pressure-injury classifiers
    (Predict/app/services/predictor_service.py, lines 44-73 and 273-299):
    which raw fields a record carries, how they are renamed, how categorical
    labels are encoded and in which order the models expect the features. */
module Schema {
  import opened Wrappers

  /** A categorical codec: an ordered label -> code dictionary. `labels` is
      the key order Python preserves; `code` the lookup table. */
  datatype Codec = Codec(labels: seq<string>, code: map<string, nat>) {
    /** Keys listed once each, in order, and nothing else in the table. */
    ghost predicate Valid() {
      && |labels| > 0
      && (forall i, j :: 0 <= i < j < |labels| ==> labels[i] != labels[j])
      && (forall i :: 0 <= i < |labels| ==> labels[i] in code)
      && (forall l :: l in code ==> l in labels)
    }

    /** `list(mapping.keys())[0]`: the label unknown values fall back to. */
    function FirstLabel(): string
      requires Valid()
    {
      labels[0]
    }

    /** `list(mapping.values())[0]`: the code null cells are filled with. */
    function FirstCode(): nat
      requires Valid()
    {
      code[labels[0]]
    }
  }

  /** The numeric input fields, in the order they are validated. */
  const NumericFields: seq<string> := ["住院第几天", "白细胞计数", "血钾浓度", "白蛋白计数"]

  /** The categorical input fields, in the order they are validated. */
  const CategoricalFields: seq<string> :=
    ["吸烟史", "摩擦力/剪切力", "移动能力", "感知觉", "身体活动度", "日常食物获取",
     "水肿", "皮肤潮湿", "意识障碍", "高血压", "糖尿病", "冠心病", "下肢深静脉血栓"]

  /** Raw field name -> the feature name the models were trained on. */
  const FieldMapping: map<string, string> := map[
    "住院第几天" := "住院时长",
    "白细胞计数" := "白细胞",
    "血钾浓度" := "血钾",
    "白蛋白计数" := "白蛋白",
    "日常食物获取" := "日常食物获取量"]

  /** The keys of FieldMapping in dictionary order (the order aliases are applied in). */
  const AliasOrder: seq<string> := ["住院第几天", "白细胞计数", "血钾浓度", "白蛋白计数", "日常食物获取"]

  const Absent := Codec(["无", "有"], map["无" := 0, "有" := 1])
  const Unrestricted := Codec(["不受限", "受限"], map["不受限" := 0, "受限" := 1])
  const Friction := Codec(["无", "潜在", "有"], map["无" := 0, "潜在" := 1, "有" := 2])
  const Activity := Codec(["走", "坐", "卧"], map["走" := 0, "坐" := 1, "卧" := 2])
  const FoodIntake := Codec(["充足", "缺乏"], map["充足" := 0, "缺乏" := 1])

  /** Feature name -> codec. The food-intake codec is keyed by the mapped name. */
  const CategoryMapping: map<string, Codec> := map[
    "吸烟史" := Absent,
    "摩擦力/剪切力" := Friction,
    "移动能力" := Unrestricted,
    "感知觉" := Unrestricted,
    "身体活动度" := Activity,
    "日常食物获取量" := FoodIntake,
    "水肿" := Absent,
    "皮肤潮湿" := Absent,
    "意识障碍" := Absent,
    "高血压" := Absent,
    "糖尿病" := Absent,
    "冠心病" := Absent,
    "下肢深静脉血栓" := Absent]

  /** The 17 model features in the column order the classifiers were fit on. */
  const ExpectedFeatures: seq<string> :=
    ["住院时长", "吸烟史", "日常食物获取量", "水肿", "皮肤潮湿",
     "移动能力", "感知觉", "身体活动度", "摩擦力/剪切力", "意识障碍",
     "高血压", "糖尿病", "冠心病", "下肢深静脉血栓", "白细胞", "血钾", "白蛋白"]

  /** `FIELD_MAPPING.get(field, field)`. */
  function MappedName(field: string): string {
    if field in FieldMapping then FieldMapping[field] else field
  }

  /** The inverse of FieldMapping: model feature -> the raw field it is read from. */
  const SourceOf: map<string, string> := map[
    "住院时长" := "住院第几天",
    "白细胞" := "白细胞计数",
    "血钾" := "血钾浓度",
    "白蛋白" := "白蛋白计数",
    "日常食物获取量" := "日常食物获取"]

  /** The raw field a model feature is read from. */
  function SourceField(feature: string): string {
    if feature in SourceOf then SourceOf[feature] else feature
  }

  /** The numeric features, by their model-side names. */
  predicate IsNumericFeature(feature: string) {
    SourceField(feature) in NumericFields
  }

  /** The model-side names of the numeric fields. */
  const NumericFeatureSet: set<string> := {"住院时长", "白细胞", "血钾", "白蛋白"}

  /** `CATEGORY_MAPPING.get(name)` taken as truthy: a codec with at least one label. */
  predicate HasCodec(name: string) {
    name in CategoryMapping && CategoryMapping[name].code != map[]
  }

  /** The per-field defaults the batch path fills numeric nulls with
      (lines 555-562 test both the mapped and the raw name). None stands
      for the median branch. */
  function NumericDefault(field: string): Option<real> {
    if field == "住院时长" || field == "住院第几天" then Some(7.0)
    else if field == "白细胞" || field == "白细胞计数" then Some(7.0)
    else if field == "血钾" || field == "血钾浓度" then Some(4.0)
    else if field == "白蛋白" || field == "白蛋白计数" then Some(40.0)
    else None
  }

  /** SourceOf is exactly the inverse of FieldMapping. */
  lemma SourceOfInvertsFieldMapping()
    ensures forall a :: a in FieldMapping ==> FieldMapping[a] in SourceOf && SourceOf[FieldMapping[a]] == a
    ensures forall g :: g in SourceOf ==> SourceOf[g] in FieldMapping && FieldMapping[SourceOf[g]] == g
  {
  }

  /** The alias iteration order lists exactly the keys of FieldMapping, once each. */
  lemma AliasOrderIsFieldMapping()
    ensures forall a :: a in FieldMapping <==> a in AliasOrder
    ensures forall i, j :: 0 <= i < j < |AliasOrder| ==> AliasOrder[i] != AliasOrder[j]
  {
  }

  /** No alias is itself a model feature, so the batch path (line 502) always drops it. */
  lemma AliasesAreNotFeatures()
    ensures forall a :: a in FieldMapping ==> a !in ExpectedFeatures && FieldMapping[a] != a
  {
  }

  /** A renamed field is never itself an alias, so renaming does not chain. */
  lemma TargetsAreNotAliases()
    ensures forall a :: a in FieldMapping ==> FieldMapping[a] !in FieldMapping
  {
  }

  /** No codec is keyed by an alias: `FIELD_MAPPING.get(k, k)` is `k` for
      every codec key `k` (line 517). */
  lemma CodecKeysUnaliased()
    ensures forall k :: k in CategoryMapping ==> k !in FieldMapping && MappedName(k) == k
  {
    CodecKeysAreFeatures();
    AliasesAreNotFeatures();
  }

  lemma CodecKeysAreFeatures()
    ensures forall k :: k in CategoryMapping ==> k in ExpectedFeatures
  {
  }

  /** The 17 feature names are pairwise distinct. */
  lemma ExpectedFeaturesDistinct()
    ensures |ExpectedFeatures| == 17
    ensures forall i, j :: 0 <= i < j < |ExpectedFeatures| ==> ExpectedFeatures[i] != ExpectedFeatures[j]
  {
  }

  /** Renaming the numeric and categorical fields yields model features, and
      SourceField undoes the renaming. */
  lemma FieldsMapIntoFeatures()
    ensures forall f :: f in NumericFields ==> MappedName(f) in ExpectedFeatures && SourceField(MappedName(f)) == f
    ensures forall f :: f in CategoricalFields ==> MappedName(f) in ExpectedFeatures && SourceField(MappedName(f)) == f
  {
    NumericFieldsMapIntoFeatures();
    CategoricalFieldsMapIntoFeatures();
  }

  lemma NumericFieldsMapIntoFeatures()
    ensures forall f :: f in NumericFields ==> MappedName(f) in ExpectedFeatures && SourceField(MappedName(f)) == f
  {
  }

  lemma CategoricalFieldsMapIntoFeatures()
    ensures forall f :: f in CategoricalFields ==> MappedName(f) in ExpectedFeatures && SourceField(MappedName(f)) == f
  {
  }

  /** Every model feature is the renaming of some numeric or categorical field,
      so the renamed fields cover the feature list and the missing-feature check
      of the single-record path (lines 372-374) can never fire. */
  lemma FeaturesComeFromFields()
    ensures forall g :: g in ExpectedFeatures ==> SourceField(g) in NumericFields || SourceField(g) in CategoricalFields
    ensures forall g :: g in ExpectedFeatures ==> MappedName(SourceField(g)) == g
    ensures forall g :: g in ExpectedFeatures ==> (g in CategoryMapping <==> !IsNumericFeature(g))
  {
    FeatureSources();
    FeatureRenaming();
    FeatureKinds();
  }

  lemma FeatureSources()
    ensures forall g :: g in ExpectedFeatures ==> SourceField(g) in NumericFields || SourceField(g) in CategoricalFields
  {
  }

  lemma FeatureRenaming()
    ensures forall g :: g in ExpectedFeatures ==> MappedName(SourceField(g)) == g
  {
    SourceOfInvertsFieldMapping();
    AliasesAreNotFeatures();
  }

  lemma FeatureKinds()
    ensures forall g :: g in ExpectedFeatures ==> (g in CategoryMapping <==> !IsNumericFeature(g))
  {
    NumericFeatureKinds();
    CategoricalFeatureKinds();
  }

  lemma NumericFeatureKinds()
    ensures forall g :: g in ExpectedFeatures && IsNumericFeature(g) ==> g !in CategoryMapping
  {
    NumericFeatureNames();
    NumericNamesUncoded();
  }

  lemma NumericFeatureNames()
    ensures forall g :: g in ExpectedFeatures && IsNumericFeature(g) ==> g in NumericFeatureSet
  {
  }

  lemma NumericNamesUncoded()
    ensures forall g :: g in NumericFeatureSet ==> g !in CategoryMapping
  {
  }

  lemma CategoricalFeatureKinds()
    ensures forall g :: g in ExpectedFeatures && !IsNumericFeature(g) ==> g in CategoryMapping
  {
  }

  /** Every codec lists its labels once each and matches its lookup table. */
  lemma CodecsValid()
    ensures forall k :: k in CategoryMapping ==> CategoryMapping[k].Valid()
  {
    BaseCodecsValid();
    forall k | k in CategoryMapping
      ensures CategoryMapping[k].Valid()
    {
      CodecIsBase(k);
    }
  }

  lemma BaseCodecsValid()
    ensures Absent.Valid() && Unrestricted.Valid() && Friction.Valid()
    ensures Activity.Valid() && FoodIntake.Valid()
  {
    AbsentValid();
    UnrestrictedValid();
    FrictionValid();
    ActivityValid();
    FoodIntakeValid();
  }

  lemma AbsentValid() ensures Absent.Valid() {}
  lemma UnrestrictedValid() ensures Unrestricted.Valid() {}
  lemma FrictionValid() ensures Friction.Valid() {}
  lemma ActivityValid() ensures Activity.Valid() {}
  lemma FoodIntakeValid() ensures FoodIntake.Valid() {}

  lemma CodecIsBase(k: string)
    requires k in CategoryMapping
    ensures CategoryMapping[k] in {Absent, Unrestricted, Friction, Activity, FoodIntake}
  {
  }

  /** Every categorical field finds a non-empty codec under its mapped name, and
      no numeric field has one under either name. */
  lemma CategoricalFieldsHaveCodecs()
    ensures forall f :: f in CategoricalFields ==> HasCodec(MappedName(f)) && CategoryMapping[MappedName(f)].Valid()
    ensures forall f :: f in NumericFields ==> MappedName(f) !in CategoryMapping && f !in CategoryMapping
  {
    CategoricalCodecsValid();
    NumericFieldsHaveNoCodec();
  }

  lemma CategoricalCodecsValid()
    ensures forall f :: f in CategoricalFields ==> HasCodec(MappedName(f)) && CategoryMapping[MappedName(f)].Valid()
  {
    CategoricalNamesCoded();
    CodecsValid();
    forall f | f in CategoricalFields
      ensures HasCodec(MappedName(f))
    {
      var c := CategoryMapping[MappedName(f)];
      assert c.labels[0] in c.code;
    }
  }

  lemma CategoricalNamesCoded()
    ensures forall f :: f in CategoricalFields ==> MappedName(f) in CategoryMapping
  {
    CategoricalRawUnmapped();
    CategoricalRawCoded();
  }

  lemma CategoricalRawUnmapped()
    ensures forall f :: f in CategoricalFields && f != "日常食物获取" ==> f !in FieldMapping
  {
  }

  lemma CategoricalRawCoded()
    ensures forall f :: f in CategoricalFields && f != "日常食物获取" ==> f in CategoryMapping
  {
  }

  lemma NumericFieldsHaveNoCodec()
    ensures forall f :: f in NumericFields ==> MappedName(f) !in CategoryMapping && f !in CategoryMapping
  {
    NumericMappedNames();
    NumericNamesUncoded();
    NumericRawUncoded();
  }

  lemma NumericMappedNames()
    ensures forall f :: f in NumericFields ==> MappedName(f) in NumericFeatureSet
  {
  }

  lemma NumericRawUncoded()
    ensures forall f :: f in NumericFields ==> f !in CategoryMapping
  {
  }

  /** Every numeric field has a fixed default under its mapped name, so the
      median branch of the batch path (lines 563-568) is unreachable. */
  lemma NumericDefaultsCoverFields()
    ensures forall f :: f in NumericFields ==> NumericDefault(MappedName(f)).Some?
    ensures NumericDefault(MappedName("住院第几天")) == Some(7.0)
    ensures NumericDefault(MappedName("白细胞计数")) == Some(7.0)
    ensures NumericDefault(MappedName("血钾浓度")) == Some(4.0)
    ensures NumericDefault(MappedName("白蛋白计数")) == Some(40.0)
  {
  }

  /** No two fields of `fields` are renamed to the same feature. */
  predicate MappedDistinct(fields: seq<string>) {
    forall i, j :: 0 <= i < j < |fields| ==> MappedName(fields[i]) != MappedName(fields[j])
  }

  /** The features `fields` are renamed to. */
  function MappedSet(fields: seq<string>): set<string> {
    set f | f in fields :: MappedName(f)
  }

  /** Dropping the head keeps the renamed fields distinct, and the head's
      feature is not among the rest's. */
  lemma MappedDistinctTail(fields: seq<string>)
    requires fields != [] && MappedDistinct(fields)
    ensures MappedDistinct(fields[1..])
    ensures MappedSet(fields) == {MappedName(fields[0])} + MappedSet(fields[1..])
    ensures MappedName(fields[0]) !in MappedSet(fields[1..])
  {
    var rest := fields[1..];
    forall i, j | 0 <= i < j < |rest| ensures MappedName(rest[i]) != MappedName(rest[j]) {
      assert rest[i] == fields[i + 1] && rest[j] == fields[j + 1];
    }
    assert MappedSet(fields) == {MappedName(fields[0])} + MappedSet(rest);
    forall f | f in rest ensures MappedName(f) != MappedName(fields[0]) {
      var j :| 0 <= j < |rest| && rest[j] == f;
      assert fields[j + 1] == f;
    }
  }

  /** Renaming keeps the numeric and categorical fields apart: no two of them
      land on the same feature, so no value overwrites another. */
  lemma MappedNamesDistinct()
    ensures MappedDistinct(NumericFields)
    ensures MappedDistinct(CategoricalFields)
    ensures forall f, g :: f in NumericFields && g in CategoricalFields ==> MappedName(f) != MappedName(g)
  {
    NumericMappedDistinct();
    CategoricalMappedDistinct();
    KindsMappedApart();
  }

  lemma NumericMappedDistinct()
    ensures MappedDistinct(NumericFields)
  {
  }

  lemma CategoricalMappedDistinct()
    ensures MappedDistinct(CategoricalFields)
  {
    FieldsMapIntoFeatures();
    CategoricalFieldsDistinct();
    forall i, j | 0 <= i < j < |CategoricalFields|
      ensures MappedName(CategoricalFields[i]) != MappedName(CategoricalFields[j])
    {
      var f, g := CategoricalFields[i], CategoricalFields[j];
      assert SourceField(MappedName(f)) == f && SourceField(MappedName(g)) == g;
    }
  }

  lemma CategoricalFieldsDistinct()
    ensures forall i, j :: 0 <= i < j < |CategoricalFields| ==> CategoricalFields[i] != CategoricalFields[j]
  {
  }

  lemma KindsMappedApart()
    ensures forall f, g :: f in NumericFields && g in CategoricalFields ==> MappedName(f) != MappedName(g)
  {
  }

  /** What the normalizers need to know of one categorical field. */
  lemma CategoricalFieldFacts(f: string)
    requires f in CategoricalFields
    ensures SourceField(MappedName(f)) == f
    ensures MappedName(f) in ExpectedFeatures
    ensures HasCodec(MappedName(f)) && CategoryMapping[MappedName(f)].Valid()
  {
    FieldsMapIntoFeatures();
    CategoricalCodecsValid();
  }

  /** What the normalizers need to know of one numeric field. */
  lemma NumericFieldFacts(f: string)
    requires f in NumericFields
    ensures SourceField(MappedName(f)) == f
    ensures MappedName(f) in ExpectedFeatures
    ensures MappedName(f) !in CategoryMapping
  {
    FieldsMapIntoFeatures();
    NumericFieldsHaveNoCodec();
  }
}

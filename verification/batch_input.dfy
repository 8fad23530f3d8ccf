/** The fault-tolerant normalizer of uploaded tables
    (`prepare_batch_input`, Predict/app/services/predictor_service.py,
    lines 475-597). Every pandas step it applies works cell by cell under a
    column set shared by the whole table, so each stage is modelled as a
    function on the column set and a function on one row given that set. */
module BatchInput {
  import opened Wrappers
  import opened Values
  import opened Schema
  import SingleInput

  /** An uploaded table: its column names, and rows keyed by them. A column
      a row has no key for holds a null cell in that row. */
  datatype Frame = Frame(columns: set<string>, rows: seq<Record>)

  /** The `ValueError` of lines 578-579: a model feature missing after the
      preparation steps. */
  datatype BatchError = MissingFeature(feature: string)

  /** A cell holding a finite number. */
  function Numeral(x: real): Option<Raw> {
    Some(Number(Finite(x)))
  }

  // ---------------------------------------------------------------------------
  // Step 1 (lines 497-503): copy each alias column to its feature name and
  // drop the alias unless it is itself a model feature.

  predicate DropsAlias(alias: string)
    requires alias in FieldMapping
  {
    alias != FieldMapping[alias] && alias !in ExpectedFeatures
  }

  function AliasColumns(cols: set<string>, alias: string): set<string>
    requires alias in FieldMapping
  {
    if alias !in cols then cols
    else if DropsAlias(alias) then cols + {FieldMapping[alias]} - {alias}
    else cols + {FieldMapping[alias]}
  }

  function AliasRow(cols: set<string>, alias: string, r: Record): Record
    requires alias in FieldMapping
  {
    if alias !in cols then r
    else
      var copied := r[FieldMapping[alias] := Get(r, alias)];
      if DropsAlias(alias) then copied - {alias} else copied
  }

  /** Aliases listed once each, all of them keys of FieldMapping. */
  predicate AliasList(aliases: seq<string>) {
    && (forall i :: 0 <= i < |aliases| ==> aliases[i] in FieldMapping)
    && (forall i, j :: 0 <= i < j < |aliases| ==> aliases[i] != aliases[j])
  }

  function RenameColumns(cols: set<string>, aliases: seq<string>): set<string>
    requires AliasList(aliases)
    decreases |aliases|
  {
    if aliases == [] then cols
    else RenameColumns(AliasColumns(cols, aliases[0]), aliases[1..])
  }

  function RenameRow(cols: set<string>, aliases: seq<string>, r: Record): Record
    requires AliasList(aliases)
    decreases |aliases|
  {
    if aliases == [] then r
    else RenameRow(AliasColumns(cols, aliases[0]), aliases[1..], AliasRow(cols, aliases[0], r))
  }

  // ---------------------------------------------------------------------------
  // Step 2 (lines 505-511): a missing model feature becomes a column of nulls.

  const FeatureSet: set<string> := set g | g in ExpectedFeatures

  function FillColumns(cols: set<string>): set<string> {
    cols + FeatureSet
  }

  function FillRow(cols: set<string>, r: Record): Record {
    map k | k in r.Keys + FeatureSet :: if k in FeatureSet && k !in cols then None else Get(r, k)
  }

  // ---------------------------------------------------------------------------
  // Step 3 (lines 514-538): encode each categorical column. A non-null value
  // outside the codec is first replaced by the codec's first label; a null
  // cell maps to NaN and is then filled with the codec's first code.

  function EncodeCell(cell: Option<Raw>, c: Codec): nat
    requires c.Valid()
  {
    if cell.Some? && cell.value.Text? && cell.value.text in c.code then c.code[cell.value.text]
    else c.FirstCode()
  }

  /** The encoded column is `FIELD_MAPPING.get(k, k)`, which is `k` for every
      codec key (Schema.CodecKeysUnaliased). */
  function EncodeRow(cols: set<string>, r: Record): Record {
    CodecsValid();
    map k | k in r.Keys + (CategoryMapping.Keys * cols) ::
      if k in CategoryMapping && k in cols then Numeral(EncodeCell(Get(r, k), CategoryMapping[k]) as real)
      else Get(r, k)
  }

  // ---------------------------------------------------------------------------
  // Step 4 (lines 541-568): coerce each numeric column and fill its nulls.

  /** `pd.to_numeric(errors='coerce')` on one cell: nulls and text that does
      not parse become NaN. */
  function ToNumeric(cell: Option<Raw>, parse: Parser): Float {
    match cell
    case None => NaN
    case Some(Number(x)) => x
    case Some(Text(s)) => if parse(s).Some? then parse(s).value else NaN
  }

  /** `fillna(d)` on one cell. */
  function FillNaN(x: Float, d: real): real {
    match x
    case Finite(v) => v
    case NaN => d
  }

  /** The loop over NUMERIC_FIELDS. Every field visited has a fixed default
      under the name it is renamed to (Schema.NumericDefaultsCoverFields), so
      the median branch of lines 563-568 is never taken. */
  function CoerceRow(cols: set<string>, r: Record, parse: Parser, fields: seq<string>): Record
    requires forall f :: f in fields ==> NumericDefault(MappedName(f)).Some?
    decreases |fields|
  {
    if fields == [] then r
    else
      var col := MappedName(fields[0]);
      var r' := if col in cols then r[col := Numeral(FillNaN(ToNumeric(Get(r, col), parse), NumericDefault(col).value))]
                else r;
      CoerceRow(cols, r', parse, fields[1..])
  }

  // ---------------------------------------------------------------------------
  // Step 5 (lines 571-588): select the model features in order and fill any
  // remaining null with 0.

  /** `fillna(0)` on a cell of the final table. */
  function Residual(cell: Option<Raw>): real {
    match cell
    case Some(Number(Finite(x))) => x
    case _ => 0.0
  }

  /** `[f for f in features if f not in cols]`. */
  function MissingColumns(cols: set<string>, features: seq<string>): (r: seq<string>)
    ensures forall f :: f in r <==> f in features && f !in cols
  {
    if features == [] then []
    else if features[0] in cols then MissingColumns(cols, features[1..])
    else [features[0]] + MissingColumns(cols, features[1..])
  }

  /** The column set after all steps (steps 3 and 4 add no columns). */
  function StagedColumns(cols: set<string>): set<string> {
    AliasOrderIsFieldMapping();
    FillColumns(RenameColumns(cols, AliasOrder))
  }

  /** One row after steps 1-4. */
  function StagedRow(cols: set<string>, r: Record, parse: Parser): Record {
    AliasOrderIsFieldMapping();
    NumericDefaultsCoverFields();
    var renamedCols := RenameColumns(cols, AliasOrder);
    var filledCols := FillColumns(renamedCols);
    var filled := FillRow(renamedCols, RenameRow(cols, AliasOrder, r));
    CoerceRow(filledCols, EncodeRow(filledCols, filled), parse, NumericFields)
  }

  function SelectRow(r: Record): FeatureRow {
    seq(|ExpectedFeatures|, j requires 0 <= j < |ExpectedFeatures| => Residual(Get(r, ExpectedFeatures[j])))
  }

  /** `prepare_batch_input`: the whole table, prepared for the classifiers. */
  function NormalizeBatch(fr: Frame, parse: Parser): Result<FeatureTable, BatchError> {
    var missing := MissingColumns(StagedColumns(fr.columns), ExpectedFeatures);
    if missing != [] then Failure(MissingFeature(missing[0]))
    else
      Success(FeatureTable(ExpectedFeatures,
        seq(|fr.rows|, i requires 0 <= i < |fr.rows| => SelectRow(StagedRow(fr.columns, fr.rows[i], parse)))))
  }

  // ---------------------------------------------------------------------------
  // Reference definition: what each output slot should hold.

  /** The raw cell a model feature is filled from: its alias column when the
      table has one (the alias overwrites the feature's own column), else the
      feature's own column, else null. */
  function SourceCell(cols: set<string>, r: Record, g: string): Option<Raw> {
    var src := SourceField(g);
    if src != g && src in cols then Get(r, src)
    else if g in cols then Get(r, g)
    else None
  }

  /** The value a model feature gets: the label's code, or the codec's first
      code for an unknown or null label; the parsed number, or the field's
      fixed default for a null or unparseable one. */
  function BatchSlot(cols: set<string>, r: Record, g: string, parse: Parser): real
    requires g in ExpectedFeatures
  {
    CodecsValid();
    FeatureDefaults();
    var cell := SourceCell(cols, r, g);
    if g in CategoryMapping then EncodeCell(cell, CategoryMapping[g]) as real
    else FillNaN(ToNumeric(cell, parse), NumericDefault(g).value)
  }

  /** Every feature without a codec has a fixed default. */
  lemma FeatureDefaults()
    ensures forall g :: g in ExpectedFeatures && g !in CategoryMapping ==> NumericDefault(g).Some?
  {
    FeatureKinds();
    FeatureRenaming();
    NumericDefaultsCoverFields();
  }

  // ---------------------------------------------------------------------------
  // Properties

  lemma AliasListTail(aliases: seq<string>)
    requires aliases != [] && AliasList(aliases)
    ensures AliasList(aliases[1..])
    ensures aliases[0] !in aliases[1..]
  {
    var rest := aliases[1..];
    forall i, j | 0 <= i < j < |rest| ensures rest[i] != rest[j] {
      assert rest[i] == aliases[i + 1] && rest[j] == aliases[j + 1];
    }
    forall k | 0 <= k < |rest| ensures rest[k] != aliases[0] {
      assert rest[k] == aliases[k + 1];
    }
  }

  /** Renaming, seen from a column that is not an alias: it is present after
      the loop when it was before or its alias was, and its cells are the
      alias's cells when the alias was present. */
  lemma {:induction false} RenameCell(cols: set<string>, aliases: seq<string>, r: Record, k: string)
    requires AliasList(aliases)
    requires k !in FieldMapping
    ensures k in RenameColumns(cols, aliases) <==>
      k in cols || (k in SourceOf && SourceOf[k] in aliases && SourceOf[k] in cols)
    ensures Get(RenameRow(cols, aliases, r), k) ==
      if k in SourceOf && SourceOf[k] in aliases && SourceOf[k] in cols then Get(r, SourceOf[k]) else Get(r, k)
    decreases |aliases|
  {
    if aliases != [] {
      var o := aliases[0];
      var rest := aliases[1..];
      SourceOfInvertsFieldMapping();
      TargetsAreNotAliases();
      AliasListTail(aliases);
      var cols' := AliasColumns(cols, o);
      var r' := AliasRow(cols, o, r);
      RenameCell(cols', rest, r', k);
      AliasStep(cols, o, r, k);
      if k in SourceOf && SourceOf[k] in rest {
        AliasStep(cols, o, r, SourceOf[k]);
      }
    }
  }

  /** One alias step leaves every other alias alone, and changes a
      non-alias column only when it is the alias's target. */
  lemma AliasStep(cols: set<string>, alias: string, r: Record, k: string)
    requires alias in FieldMapping
    requires k !in FieldMapping || k != alias
    ensures k in AliasColumns(cols, alias) <==> k in cols || (alias in cols && k == FieldMapping[alias])
    ensures Get(AliasRow(cols, alias, r), k) == if alias in cols && k == FieldMapping[alias] then Get(r, alias) else Get(r, k)
    ensures k in FieldMapping ==> k != FieldMapping[alias]
  {
    TargetsAreNotAliases();
  }

  /** Renaming, seen from an alias: a listed alias is always gone afterwards
      (no alias is a model feature), an unlisted one is left alone. */
  lemma {:induction false} RenameDrops(cols: set<string>, aliases: seq<string>, a: string)
    requires AliasList(aliases)
    requires a in FieldMapping
    ensures a in RenameColumns(cols, aliases) <==> a in cols && a !in aliases
    decreases |aliases|
  {
    if aliases != [] {
      AliasesAreNotFeatures();
      TargetsAreNotAliases();
      AliasListTail(aliases);
      RenameDrops(AliasColumns(cols, aliases[0]), aliases[1..], a);
    }
  }

  /** After the alias loop no alias column remains, and every alias the table
      had has overwritten (or created) its feature's column. */
  lemma AliasesReplaced(cols: set<string>, r: Record)
    ensures AliasList(AliasOrder)
    ensures forall a :: a in FieldMapping ==> a !in RenameColumns(cols, AliasOrder)
    ensures forall a :: a in FieldMapping && a in cols ==>
      && FieldMapping[a] in RenameColumns(cols, AliasOrder)
      && Get(RenameRow(cols, AliasOrder, r), FieldMapping[a]) == Get(r, a)
  {
    AliasOrderIsFieldMapping();
    forall a | a in FieldMapping
      ensures a !in RenameColumns(cols, AliasOrder)
    {
      RenameDrops(cols, AliasOrder, a);
    }
    forall a | a in FieldMapping && a in cols
      ensures FieldMapping[a] in RenameColumns(cols, AliasOrder)
      ensures Get(RenameRow(cols, AliasOrder, r), FieldMapping[a]) == Get(r, a)
    {
      AliasCarried(cols, r, a);
    }
  }

  lemma AliasCarried(cols: set<string>, r: Record, a: string)
    requires a in FieldMapping && a in cols
    ensures AliasList(AliasOrder)
    ensures FieldMapping[a] in RenameColumns(cols, AliasOrder)
    ensures Get(RenameRow(cols, AliasOrder, r), FieldMapping[a]) == Get(r, a)
  {
    AliasOrderIsFieldMapping();
    SourceOfInvertsFieldMapping();
    TargetsAreNotAliases();
    RenameCell(cols, AliasOrder, r, FieldMapping[a]);
  }

  /** After steps 1 and 2 a model feature's cell is its source cell. */
  lemma FilledCell(cols: set<string>, r: Record, g: string)
    requires g in ExpectedFeatures
    ensures AliasList(AliasOrder)
    ensures Get(FillRow(RenameColumns(cols, AliasOrder), RenameRow(cols, AliasOrder, r)), g) == SourceCell(cols, r, g)
  {
    RenamedSource(cols, r, g);
    assert g in FeatureSet;
    FillCell(RenameColumns(cols, AliasOrder), RenameRow(cols, AliasOrder, r), g);
  }

  /** After step 1 a model feature's column is present when it or its alias
      was, and holds the alias's cell when the alias was present. */
  lemma RenamedSource(cols: set<string>, r: Record, g: string)
    requires g in ExpectedFeatures
    ensures AliasList(AliasOrder)
    ensures var src := SourceField(g);
      && (g in RenameColumns(cols, AliasOrder) <==> g in cols || (src != g && src in cols))
      && Get(RenameRow(cols, AliasOrder, r), g) == if src != g && src in cols then Get(r, src) else Get(r, g)
  {
    AliasOrderIsFieldMapping();
    SourceOfInvertsFieldMapping();
    AliasesAreNotFeatures();
    RenameCell(cols, AliasOrder, r, g);
  }

  /** Step 2 on one model feature: its cell stays when the column exists and
      is null otherwise. */
  lemma FillCell(cols: set<string>, r: Record, g: string)
    requires g in FeatureSet
    ensures Get(FillRow(cols, r), g) == if g in cols then Get(r, g) else None
  {
  }

  /** Step 3 writes the code into each codec column and nothing else. */
  lemma EncodedCell(cols: set<string>, r: Record, k: string)
    ensures CategoryMapping.Keys <= cols && k in CategoryMapping ==>
      CategoryMapping[k].Valid() && Get(EncodeRow(cols, r), k) == Numeral(EncodeCell(Get(r, k), CategoryMapping[k]) as real)
    ensures k !in CategoryMapping ==> Get(EncodeRow(cols, r), k) == Get(r, k)
  {
    CodecsValid();
  }

  /** Step 4 replaces the cells of the renamed numeric columns with their
      coerced, default-filled values, and leaves every other cell alone. */
  lemma {:induction false} CoercedCell(cols: set<string>, r: Record, parse: Parser, fields: seq<string>, k: string)
    requires forall f :: f in fields ==> NumericDefault(MappedName(f)).Some?
    requires MappedDistinct(fields)
    ensures k in MappedSet(fields) && k in cols ==>
      NumericDefault(k).Some? &&
      Get(CoerceRow(cols, r, parse, fields), k) == Numeral(FillNaN(ToNumeric(Get(r, k), parse), NumericDefault(k).value))
    ensures k !in MappedSet(fields) || k !in cols ==> Get(CoerceRow(cols, r, parse, fields), k) == Get(r, k)
    decreases |fields|
  {
    if fields != [] {
      var col := MappedName(fields[0]);
      var r' := if col in cols then r[col := Numeral(FillNaN(ToNumeric(Get(r, col), parse), NumericDefault(col).value))]
                else r;
      MappedDistinctTail(fields);
      CoercedCell(cols, r', parse, fields[1..], k);
    }
  }

  /** After steps 1-4 every model feature's cell holds the number BatchSlot
      prescribes, so the residual fill of step 5 never fires. */
  lemma StagedCell(cols: set<string>, r: Record, parse: Parser, g: string)
    requires g in ExpectedFeatures
    ensures Get(StagedRow(cols, r, parse), g) == Numeral(BatchSlot(cols, r, g, parse))
  {
    AliasOrderIsFieldMapping();
    NumericDefaultsCoverFields();
    CodecKeysAreFeatures();
    var renamedCols := RenameColumns(cols, AliasOrder);
    var filledCols := FillColumns(renamedCols);
    var filled := FillRow(renamedCols, RenameRow(cols, AliasOrder, r));
    var encoded := EncodeRow(filledCols, filled);
    FilledCell(cols, r, g);
    assert CategoryMapping.Keys <= filledCols;
    EncodedCell(filledCols, filled, g);
    NumericMappedDistinct();
    CoercedCell(filledCols, encoded, parse, NumericFields, g);
    assert g in filledCols;
    NumericFeatureIffUncoded(g);
  }

  /** Among the model features, the renamed numeric fields are exactly the
      ones without a codec. */
  lemma NumericFeatureIffUncoded(g: string)
    requires g in ExpectedFeatures
    ensures g in MappedSet(NumericFields) <==> g !in CategoryMapping
  {
    FeatureKinds();
    FeatureRenaming();
    NumericFieldsHaveNoCodec();
    if g !in CategoryMapping {
      assert MappedName(SourceField(g)) == g;
    }
  }

  /** `prepare_batch_input` never fails: it keeps every row, the columns are
      the 17 model features in order, and every slot holds what BatchSlot
      prescribes for that row and feature. */
  lemma NormalizeBatchSlots(fr: Frame, parse: Parser)
    ensures NormalizeBatch(fr, parse).Success?
    ensures var t := NormalizeBatch(fr, parse).value;
      && t.columns == ExpectedFeatures
      && |t.rows| == |fr.rows|
      && forall i :: 0 <= i < |fr.rows| ==>
           && |t.rows[i]| == |ExpectedFeatures|
           && forall j :: 0 <= j < |ExpectedFeatures| ==>
                t.rows[i][j] == BatchSlot(fr.columns, fr.rows[i], ExpectedFeatures[j], parse)
  {
    NothingMissing(fr.columns);
    var t := NormalizeBatch(fr, parse).value;
    forall i | 0 <= i < |fr.rows|
      ensures |t.rows[i]| == |ExpectedFeatures|
      ensures forall j :: 0 <= j < |ExpectedFeatures| ==>
        t.rows[i][j] == BatchSlot(fr.columns, fr.rows[i], ExpectedFeatures[j], parse)
    {
      assert t.rows[i] == SelectRow(StagedRow(fr.columns, fr.rows[i], parse));
      SelectedRow(fr.columns, fr.rows[i], parse);
    }
  }

  /** One selected row holds BatchSlot's value for every feature. */
  lemma SelectedRow(cols: set<string>, r: Record, parse: Parser)
    ensures |SelectRow(StagedRow(cols, r, parse))| == |ExpectedFeatures|
    ensures forall j :: 0 <= j < |ExpectedFeatures| ==>
      SelectRow(StagedRow(cols, r, parse))[j] == BatchSlot(cols, r, ExpectedFeatures[j], parse)
  {
    forall j | 0 <= j < |ExpectedFeatures|
      ensures SelectRow(StagedRow(cols, r, parse))[j] == BatchSlot(cols, r, ExpectedFeatures[j], parse)
    {
      SelectedSlot(cols, r, parse, j);
    }
  }

  lemma SelectedSlot(cols: set<string>, r: Record, parse: Parser, j: int)
    requires 0 <= j < |ExpectedFeatures|
    ensures SelectRow(StagedRow(cols, r, parse))[j] == BatchSlot(cols, r, ExpectedFeatures[j], parse)
  {
    StagedCell(cols, r, parse, ExpectedFeatures[j]);
  }

  /** The missing-feature check of lines 574-579 never fires. */
  lemma NothingMissing(cols: set<string>)
    ensures MissingColumns(StagedColumns(cols), ExpectedFeatures) == []
  {
    var staged := StagedColumns(cols);
    assert forall f :: f in ExpectedFeatures ==> f in FeatureSet;
    NoneMissing(staged, ExpectedFeatures);
  }

  /** When every feature is a column, nothing is reported missing. */
  lemma {:induction false} NoneMissing(cols: set<string>, features: seq<string>)
    requires forall f :: f in features ==> f in cols
    ensures MissingColumns(cols, features) == []
  {
    if features != [] {
      NoneMissing(cols, features[1..]);
    }
  }

  /** No model feature and no alias of one is a column. */
  predicate NoFeatureColumns(cols: set<string>) {
    forall g :: g in ExpectedFeatures ==> g !in cols && SourceField(g) !in cols
  }

  /** The row a table without any of the expected columns gets: every
      codec's first code, and the fixed defaults 7, 7.0, 4.0 and 40.0. */
  const DefaultRow: FeatureRow :=
    [7.0, 0.0, 0.0, 0.0, 0.0, 0.0, 0.0, 0.0, 0.0, 0.0, 0.0, 0.0, 0.0, 0.0, 7.0, 4.0, 40.0]

  /** A table that has none of the model features nor any of their aliases
      as columns gets DefaultRow in every row, whatever its cells hold. */
  lemma AbsentColumnsDefault(fr: Frame, parse: Parser)
    requires NoFeatureColumns(fr.columns)
    ensures NormalizeBatch(fr, parse).Success?
    ensures forall i :: 0 <= i < |fr.rows| ==> NormalizeBatch(fr, parse).value.rows[i] == DefaultRow
  {
    NothingMissing(fr.columns);
    var t := NormalizeBatch(fr, parse).value;
    forall i | 0 <= i < |fr.rows|
      ensures t.rows[i] == DefaultRow
    {
      assert t.rows[i] == SelectRow(StagedRow(fr.columns, fr.rows[i], parse));
      AbsentRow(fr.columns, fr.rows[i], parse);
    }
  }

  lemma AbsentRow(cols: set<string>, r: Record, parse: Parser)
    requires NoFeatureColumns(cols)
    ensures SelectRow(StagedRow(cols, r, parse)) == DefaultRow
  {
    SelectedRow(cols, r, parse);
    AbsentSlots(cols, r, parse);
  }

  /** Every slot BatchSlot prescribes for a row without the feature columns
      is DefaultRow's. */
  lemma AbsentSlots(cols: set<string>, r: Record, parse: Parser)
    requires NoFeatureColumns(cols)
    ensures forall j :: 0 <= j < |ExpectedFeatures| ==> BatchSlot(cols, r, ExpectedFeatures[j], parse) == DefaultRow[j]
  {
    forall j | 0 <= j < |ExpectedFeatures|
      ensures BatchSlot(cols, r, ExpectedFeatures[j], parse) == DefaultRow[j]
    {
      assert ExpectedFeatures[j] in ExpectedFeatures;
      AbsentSlot(cols, r, parse, j);
    }
  }

  lemma AbsentSlot(cols: set<string>, r: Record, parse: Parser, j: int)
    requires 0 <= j < |ExpectedFeatures|
    requires ExpectedFeatures[j] !in cols && SourceField(ExpectedFeatures[j]) !in cols
    ensures BatchSlot(cols, r, ExpectedFeatures[j], parse) == DefaultRow[j]
  {
    var g := ExpectedFeatures[j];
    assert SourceCell(cols, r, g) == None;
    if j == 0 || j == 14 || j == 15 || j == 16 {
      NullNumericSlot(j);
    } else {
      NullCodedSlot(j);
    }
  }

  lemma NullNumericSlot(j: int)
    requires j == 0 || j == 14 || j == 15 || j == 16
    ensures ExpectedFeatures[j] !in CategoryMapping
    ensures NumericDefault(ExpectedFeatures[j]) == Some(DefaultRow[j])
  {
    NumericNamesUncoded();
  }

  lemma NullCodedSlot(j: int)
    requires 0 < j < 14
    ensures ExpectedFeatures[j] in CategoryMapping
    ensures CategoryMapping[ExpectedFeatures[j]].Valid()
    ensures CategoryMapping[ExpectedFeatures[j]].FirstCode() as real == DefaultRow[j]
  {
    CategoricalFeatureKinds();
    FirstCodeZero(ExpectedFeatures[j]);
  }

  /** Every codec's first label is coded 0. */
  lemma FirstCodeZero(k: string)
    requires k in CategoryMapping
    ensures CategoryMapping[k].Valid() && CategoryMapping[k].FirstCode() == 0
  {
    CodecIsBase(k);
    BaseCodecsValid();
    BaseFirstCodesZero();
  }

  lemma BaseFirstCodesZero()
    ensures Absent.Valid() && Unrestricted.Valid() && Friction.Valid()
    ensures Activity.Valid() && FoodIntake.Valid()
    ensures Absent.FirstCode() == 0 && Unrestricted.FirstCode() == 0 && Friction.FirstCode() == 0
    ensures Activity.FirstCode() == 0 && FoodIntake.FirstCode() == 0
  {
    BaseCodecsValid();
  }

  /** The two normalizers agree: a record the single-record path accepts,
      uploaded as a one-row table with its own keys as columns, is prepared
      into the very same row by the batch path. */
  lemma SingleAgreesWithBatch(data: Record, parse: Parser)
    requires SingleInput.PrepareSingleInput(data, parse).Success?
    ensures NormalizeBatch(Frame(data.Keys, [data]), parse).Success?
    ensures NormalizeBatch(Frame(data.Keys, [data]), parse).value == SingleInput.PrepareSingleInput(data, parse).value
  {
    NormalizeBatchSlots(Frame(data.Keys, [data]), parse);
    AgreeingTables(data, parse, SingleInput.PrepareSingleInput(data, parse).value,
                   NormalizeBatch(Frame(data.Keys, [data]), parse).value);
  }

  lemma AgreeingTables(data: Record, parse: Parser, t: FeatureTable, b: FeatureTable)
    requires SingleInput.PrepareSingleInput(data, parse) == Success(t)
    requires b.columns == ExpectedFeatures && |b.rows| == 1 && |b.rows[0]| == |ExpectedFeatures|
    requires forall j :: 0 <= j < |ExpectedFeatures| ==>
      b.rows[0][j] == BatchSlot(data.Keys, data, ExpectedFeatures[j], parse)
    ensures b == t
  {
    AgreeingRow(data, parse, t, b.rows[0]);
    assert b.rows == t.rows;
  }

  lemma AgreeingRow(data: Record, parse: Parser, t: FeatureTable, row: FeatureRow)
    requires SingleInput.PrepareSingleInput(data, parse) == Success(t)
    requires |row| == |ExpectedFeatures|
    requires forall j :: 0 <= j < |ExpectedFeatures| ==> row[j] == BatchSlot(data.Keys, data, ExpectedFeatures[j], parse)
    ensures t.columns == ExpectedFeatures && t.rows == [row]
  {
    AgreeingSlots(data, parse, t);
    assert row == t.rows[0];
  }

  /** The single path's row holds BatchSlot's value in every slot. */
  lemma AgreeingSlots(data: Record, parse: Parser, t: FeatureTable)
    requires SingleInput.PrepareSingleInput(data, parse) == Success(t)
    ensures t.columns == ExpectedFeatures && |t.rows| == 1 && |t.rows[0]| == |ExpectedFeatures|
    ensures forall j :: 0 <= j < |ExpectedFeatures| ==> BatchSlot(data.Keys, data, ExpectedFeatures[j], parse) == t.rows[0][j]
  {
    SingleInput.PrepareRow(data, parse);
    forall j | 0 <= j < |ExpectedFeatures|
      ensures BatchSlot(data.Keys, data, ExpectedFeatures[j], parse) == t.rows[0][j]
    {
      AgreeingSlot(data, parse, t, j);
    }
  }

  lemma AgreeingSlot(data: Record, parse: Parser, t: FeatureTable, j: int)
    requires SingleInput.PrepareSingleInput(data, parse) == Success(t)
    requires 0 <= j < |ExpectedFeatures|
    ensures |t.rows| == 1 && |t.rows[0]| == |ExpectedFeatures|
    ensures BatchSlot(data.Keys, data, ExpectedFeatures[j], parse) == t.rows[0][j]
  {
    SingleInput.PrepareRow(data, parse);
    SlotAgrees(data, parse, ExpectedFeatures[j]);
  }

  /** Where the single-record path fills a slot, the batch path fills it with
      the same value. */
  lemma SlotAgrees(data: Record, parse: Parser, g: string)
    requires g in ExpectedFeatures
    requires SingleInput.ExpectedSlot(data, parse, g).Some?
    ensures BatchSlot(data.Keys, data, g, parse) == SingleInput.ExpectedSlot(data, parse, g).value
  {
    SourceOfInvertsFieldMapping();
    AliasesAreNotFeatures();
    CodecsValid();
    FeatureDefaults();
    assert SourceCell(data.Keys, data, g) == Get(data, SourceField(g));
  }
}

# HAPI predictor inference core in Dafny

This project models the inference core of the HAPI pressure-injury predictor
(`Predict/app/services/predictor_service.py`) and proves properties of the
model. It covers:

- the fixed feature schema:
  - the numeric and categorical input fields;
  - the alias table `FIELD_MAPPING`;
  - the label codecs `CATEGORY_MAPPING`;
  - the 17 model features in training order.
- `prepare_single_input`: the fail-fast normalizer of one submitted record.
- `prepare_batch_input`: the fault-tolerant normalizer of an uploaded table.
- `get_risk_level`: the mean of a probability list, cut at 0.7 and 0.3.
- The ensemble engines:
  - `predict_single`;
  - `predict_batch`;
  - the per-row tier of `process_batch_file`;
  - `predict_batch_with_all_models`.
- The metric slice of `process_batch_file_with_all_models`: accuracy, precision, recall, F1 and the AUC guard.
- The model registry: `load_models` (its resolution order) and `get_available_models`.

Trained classifiers are opaque:
- A model is a handle of any type `M`.
- A `Classifier<M>` gives two call functions, `proba` and `predict`. Each answers `None` when the call raises.
- Python's `float(...)` on text, and pandas' numeric coercion, are one abstract `Parser`. It may refuse a string or yield NaN.
- The file system is an `Environment`:
  - the directory: missing, or present with its file names and whether listing it works;
  - a "joblib loads this file" predicate;
  - whether sklearn imports;
  - whether a key's mock model can be built and fitted.

Modules, one per file:

| file | module | models |
|---|---|---|
| wrappers.dfy | Wrappers | `Option` / `Result` |
| values.dfy | Values | raw cells, NaN-or-finite floats, records, feature rows, probabilities |
| schema.dfy | Schema | the schema constants and their structural facts |
| single_input.dfy | SingleInput | `prepare_single_input` |
| batch_input.dfy | BatchInput | `prepare_batch_input` |
| risk.dfy | Risk | `get_risk_level` |
| ensemble.dfy | Ensemble | `predict_single`, `predict_batch`, the per-row tier, `predict_batch_with_all_models` |
| evaluation.dfy | Evaluation | the metric slice |
| registry.dfy | Registry | `load_models`, `_create_mock_models`, `get_available_models` |

Each operation has a partner it is checked against:
- `prepare_single_input`: the predicate `Acceptable` (success iff it holds) and the per-feature reference `ExpectedSlot`.
- `prepare_batch_input`: the per-cell reference `BatchSlot`. The batch path also agrees with the single path on a one-row table.
- The ensemble: `get_risk_level` and the arithmetic mean.
- The metrics: the confusion-matrix counts, read as set cardinalities.

The two paths report "no probability" differently:
- The single path reports `未知` (`Unknown`) when no model produced a probability.
- The batch ensemble reports `无法确定` (`Undetermined`) for such a row.

The model keeps this difference.

## Model

All source paths are relative to the repository root.

| member | source | states |
|---|---|---|
| Schema.SourceOfInvertsFieldMapping | Predict/app/services/predictor_service.py:273-279 | the feature-to-raw-field table is exactly the inverse of `FIELD_MAPPING` |
| Schema.AliasOrderIsFieldMapping | Predict/app/services/predictor_service.py:497-503 | the alias loop visits exactly the keys of `FIELD_MAPPING`, each once |
| Schema.AliasesAreNotFeatures | Predict/app/services/predictor_service.py:502-503 | no alias is a model feature, and no alias maps to itself; so the batch path always drops an alias column it copied |
| Schema.TargetsAreNotAliases | Predict/app/services/predictor_service.py:273-279 | no renamed name is itself an alias, so renaming never chains |
| Schema.CodecKeysUnaliased | Predict/app/services/predictor_service.py:514-518 | no codec is keyed by an alias; `FIELD_MAPPING.get(k, k)` is `k` for every codec key |
| Schema.ExpectedFeaturesDistinct | Predict/app/services/predictor_service.py:295-299 | there are 17 model features, pairwise distinct |
| Schema.FieldsMapIntoFeatures | Predict/app/services/predictor_service.py:334-362 | renaming any numeric or categorical field yields a model feature, and the feature-to-field table gives the field back |
| Schema.FeaturesComeFromFields | Predict/app/services/predictor_service.py:371-374 | each model feature is the renaming of a numeric or categorical field, and has a codec exactly when it is not numeric; with FieldsMapIntoFeatures, the renamed fields are exactly the feature list |
| Schema.CategoricalFieldsHaveCodecs | Predict/app/services/predictor_service.py:350-357 | each categorical field finds a non-empty, well-formed codec under its mapped name; no numeric field has a codec under either name |
| Schema.CodecsValid | Predict/app/services/predictor_service.py:280-294 | each codec lists its labels once each, and its code table has exactly those labels |
| Schema.KindsMappedApart | Predict/app/services/predictor_service.py:339-362 | no numeric field and categorical field map to the same feature, so the categorical loop never overwrites a numeric entry |
| Schema.MappedNamesDistinct | Predict/app/services/predictor_service.py:339-362 | renaming is injective on the numeric fields, on the categorical fields, and across the two lists |
| Schema.NumericDefaultsCoverFields | Predict/app/services/predictor_service.py:554-562 | each numeric field's mapped name has a fixed batch default: 7.0, 7.0, 4.0 and 40.0 |
| SingleInput.CollectSucceeds | Predict/app/services/predictor_service.py:334-362 | a validation loop passes exactly when every field in it validates |
| SingleInput.CollectFailsFirst | Predict/app/services/predictor_service.py:334-362 | a failing loop reports the error of the first field that fails; every earlier field validated |
| SingleInput.CollectStores | Predict/app/services/predictor_service.py:339-362 | after a passing loop, the dictionary's keys are the earlier keys plus the mapped names, and each mapped name holds its field's validated value |
| SingleInput.CollectKeys | Predict/app/services/predictor_service.py:339-362 | a passing loop adds exactly the mapped names as keys and leaves every other entry unchanged |
| SingleInput.MissingFrom | Predict/app/services/predictor_service.py:372 | the missing-feature list holds exactly the features absent from the dictionary; it is empty iff all are present |
| SingleInput.Reorder | Predict/app/services/predictor_service.py:376 | the reordered row has one slot per feature, each holding that feature's dictionary value |
| SingleInput.NumericFieldSlot | Predict/app/services/predictor_service.py:334-342 | a numeric field validates to a finite number exactly when the reference slot of its feature is defined, and then to that number |
| SingleInput.CategoricalFieldSlot | Predict/app/services/predictor_service.py:345-362 | a categorical field validates exactly when the reference slot of its feature is defined, and then to that label's code |
| SingleInput.CollectedFeatures | Predict/app/services/predictor_service.py:364-376 | after both loops pass, every model feature is in the dictionary; its value is finite exactly when the reference slot is defined, and then equals it |
| SingleInput.PrepareSucceedsIff | Predict/app/services/predictor_service.py:330-382 | the normalizer succeeds exactly when every model feature can be filled: each numeric field is present and parses to a finite number, and each categorical field is present and is a label of its codec |
| SingleInput.PrepareRow | Predict/app/services/predictor_service.py:372-382 | on success the result has one row, its columns are the 17 features in order, and each slot is the parsed number or the label's code of the field the feature is read from |
| SingleInput.PrepareErrorsGenuine | Predict/app/services/predictor_service.py:336-380 | each error is genuine: a missing or unparseable numeric field, a missing categorical field, a label outside the codec (listing that codec's labels), or a NaN from a numeric field. The missing-codec and missing-feature errors never occur |
| SingleInput.UnacceptableRowHasNaN | Predict/app/services/predictor_service.py:371-380 | if both loops pass but the record is unacceptable, nothing is missing and the assembled row holds a NaN |
| SingleInput.CollectedComplete | Predict/app/services/predictor_service.py:372-374 | after both loops pass, no model feature is missing, so that check never fires |
| SingleInput.NumericCheckedFirst | Predict/app/services/predictor_service.py:334-348 | a bad numeric field fails the record with a numeric error, whatever the categorical fields hold |
| SingleInput.CodesAreFinite | Predict/app/services/predictor_service.py:359-362 | a categorical value that validates is a finite code |
| BatchInput.RenameCell | Predict/app/services/predictor_service.py:497-503 | after the alias loop, a non-alias column is present iff it, or an alias of it, was; it holds the alias's cells when the alias was present |
| BatchInput.RenameDrops | Predict/app/services/predictor_service.py:497-503 | after the alias loop, an alias column survives only if it was present and not in the loop |
| BatchInput.AliasesReplaced | Predict/app/services/predictor_service.py:497-503 | after the alias loop no alias column remains, and each alias the table had has overwritten or created its feature's column |
| BatchInput.FilledCell | Predict/app/services/predictor_service.py:505-511 | after renaming and null-filling, a feature's cell is its source cell: the alias's if present, else its own, else null |
| BatchInput.EncodedCell | Predict/app/services/predictor_service.py:513-538 | encoding writes each codec column's code (or the first code, for an unknown or null label) and leaves every other column alone |
| BatchInput.CoercedCell | Predict/app/services/predictor_service.py:540-562 | coercion writes each present numeric feature's parsed number, or its fixed default for a null or unparseable cell, and leaves other columns alone |
| BatchInput.StagedCell | Predict/app/services/predictor_service.py:497-568 | after the four stages, each model feature's cell is the number the reference `BatchSlot` prescribes |
| BatchInput.NumericFeatureIffUncoded | Predict/app/services/predictor_service.py:541-568 | a model feature gets a numeric default exactly when it has no codec, so the median branch is unreachable |
| BatchInput.NothingMissing | Predict/app/services/predictor_service.py:573-580 | after the stages every model feature is a column, so the missing-feature `ValueError` never fires |
| BatchInput.NormalizeBatchSlots | Predict/app/services/predictor_service.py:475-597 | the batch normalizer never fails and keeps the row count; its columns are the 17 features in order, and each slot is `BatchSlot` of that row and feature |
| BatchInput.AbsentColumnsDefault | Predict/app/services/predictor_service.py:505-568 | a table with no feature or alias columns gets the default row in every row: each codec's first code, and 7.0, 7.0, 4.0, 40.0 |
| BatchInput.FirstCodeZero | Predict/app/services/predictor_service.py:280-294 | each codec is well-formed and its first label codes to 0 |
| BatchInput.SingleAgreesWithBatch | Predict/app/services/predictor_service.py:330-597 | on a record the single path accepts, the batch path on the one-row table of that record gives the same table |
| BatchInput.SlotAgrees | Predict/app/services/predictor_service.py:522-562 | where the single path's slot is defined, the batch path's slot equals it |
| Risk.GetRiskLevel | Predict/app/services/predictor_service.py:463-473 | `未知` exactly on the empty list; otherwise high iff the mean is ≥ 0.7, medium iff it is in [0.3, 0.7), low iff it is < 0.3 |
| Risk.SumBounds | Predict/app/services/predictor_service.py:467 | a sum of n values in [lo, hi] lies in [n·lo, n·hi] |
| Risk.MeanBounds | Predict/app/services/predictor_service.py:467 | the mean of values in [lo, hi] lies in [lo, hi] |
| Risk.MeanProb | Predict/app/services/predictor_service.py:467 | the mean of probabilities is a probability |
| Risk.SingletonTier | Predict/app/services/predictor_service.py:627 | `get_risk_level([p])` tiers p itself: high at ≥ 0.7, medium at ≥ 0.3, otherwise low |
| Risk.Boundaries | Predict/app/services/predictor_service.py:468-472 | the thresholds are inclusive from below: 0.7 is high, just under it is medium, 0.3 is medium, just under it is low |
| Risk.Monotone | Predict/app/services/predictor_service.py:467-473 | a higher mean never gives a lower tier |
| Risk.ProbabilitiesGetATier | Predict/app/services/predictor_service.py:465-473 | a non-empty list always lands in high, medium or low |
| Ensemble.Loaded | Predict/app/services/predictor_service.py:907 | the loaded models are exactly the entries holding a model; one entry yields itself when it holds a model and nothing otherwise |
| Ensemble.LoadedAppend | Predict/app/services/predictor_service.py:907 | the filter distributes over concatenation; with Loaded's one-entry case, the loaded models are the entries holding a model, each once, in dictionary order |
| Ensemble.RunModel | Predict/app/services/predictor_service.py:397-407 | a model's outcome has a probability exactly when both calls succeed, and then holds both results; a failing call gives `None` for both |
| Ensemble.Outcomes | Predict/app/services/predictor_service.py:393-407 | each loaded model is run on the row independently, in order |
| Ensemble.ValidProbs | Predict/app/services/predictor_service.py:423 | the valid probabilities are exactly the non-null ones among the outcomes; one outcome yields its probability when it has one and nothing otherwise |
| Ensemble.ValidProbsAppend | Predict/app/services/predictor_service.py:423 | the filter distributes over concatenation; with ValidProbs's one-outcome case, the valid probabilities are the non-null ones in model order, with their multiplicity |
| Ensemble.ValidProbsKeepsDuplicates | Predict/app/services/predictor_service.py:423-424 | two models with the same probability both count: the list is not deduplicated, so the mean weighs each scoring model once |
| Ensemble.PredictSingle | Predict/app/services/predictor_service.py:386-387 | `predict_single` raises exactly when the registry is empty |
| Ensemble.SingleOutcomes | Predict/app/services/predictor_service.py:393-407 | every entry holding a model contributes its outcome, and every outcome comes from such an entry; entries without a model are skipped |
| Ensemble.SingleRisk | Predict/app/services/predictor_service.py:422-424 | the tier is `未知` exactly when no outcome has a probability, and otherwise the threshold tier of the mean of the valid probabilities |
| Ensemble.NothingLoadedIsUnknown | Predict/app/services/predictor_service.py:386-424 | a non-empty registry with no loaded model gives no outcomes and `未知`, not an error |
| Ensemble.BatchCall | Predict/app/services/predictor_service.py:450-452 | a vectorised call succeeds exactly when the per-row call succeeds on every row, and then returns those per-row results |
| Ensemble.Lookup | Predict/app/services/predictor_service.py:443-446 | the model found under a key is that key's entry; with distinct keys, nothing is found exactly when every entry under the key is empty |
| Ensemble.PredictBatch | Predict/app/services/predictor_service.py:443-461 | fails with "unavailable" exactly when the key has no model; otherwise fails exactly when some row's call raises, and on success returns each row's probability and class |
| Ensemble.RowTiersThresholds | Predict/app/services/predictor_service.py:627 | the per-row tier of a probability is high at ≥ 0.7, medium at ≥ 0.3, otherwise low |
| Ensemble.ClassOf | Predict/app/services/predictor_service.py:922 | the class is 1 exactly when the probability is ≥ 0.5 |
| Ensemble.Columns | Predict/app/services/predictor_service.py:917-932 | there is one column per loaded model, in order, each of the table's length |
| Ensemble.RowProbs | Predict/app/services/predictor_service.py:941-942 | a row's probabilities are exactly the non-null probabilities of the models in that row; one column yields its cell when it is non-null and nothing otherwise |
| Ensemble.RowProbsAppend | Predict/app/services/predictor_service.py:941-942 | the filter distributes over concatenation; with RowProbs's one-column case, a row's probabilities are its non-null cells in column order, with their multiplicity |
| Ensemble.PredictBatchAll | Predict/app/services/predictor_service.py:907-910 | fails exactly when no entry holds a model; on success there is one ensemble row per input row and one column per loaded model |
| Ensemble.ColumnContents | Predict/app/services/predictor_service.py:917-932 | a model's cell is null exactly when its vectorised call raised, the class is null exactly when the probability is, and otherwise the class is `p ≥ 0.5` |
| Ensemble.EnsembleRows | Predict/app/services/predictor_service.py:939-956 | a row is null/null/`无法确定` exactly when it has no valid probability; otherwise its probability is the mean, its class is `mean ≥ 0.5`, and its tier is the threshold tier of the mean |
| Ensemble.AllOrNothing | Predict/app/services/predictor_service.py:928-956 | a row reads `无法确定` exactly when every loaded model's vectorised call raised, so either every row is scored or none is |
| Ensemble.SameProbabilities | Predict/app/services/predictor_service.py:397-407 | on one row, the single path's valid probabilities are the batch path's row probabilities, in model order |
| Ensemble.SingleAgreesWithBatch | Predict/app/services/predictor_service.py:384-964 | on a one-row table, the ensemble's probability is the mean of `predict_single`'s valid probabilities and the tiers agree; with no probability, single says `未知` and batch says `无法确定` |
| Evaluation.ValidIndices | Predict/app/services/predictor_service.py:1046-1047 | the kept rows are exactly those with a non-null ensemble class and a non-null label, in increasing order |
| Evaluation.Tally | Predict/app/services/predictor_service.py:1056-1059 | the four confusion counts add up to the number of kept rows |
| Evaluation.Ratio | Predict/app/services/predictor_service.py:1057-1059 | a zero denominator gives 0 (`zero_division=0`); otherwise the ratio times the denominator is the numerator, and it lies in [0, 1] when the numerator does not exceed the denominator |
| Evaluation.Evaluate | Predict/app/services/predictor_service.py:1046-1060 | no metrics exactly when no row is kept; a failed metric call means two kept rows had different labels and the AUC call raised; scored accuracy, precision, recall and F1 lie in [0, 1] |
| Evaluation.ScoredMetrics | Predict/app/services/predictor_service.py:1050-1060 | the scored metrics are the count formulas over the kept rows; AUC is the AUC call's result when two classes remain, and 0 when every kept label is the same |
| Evaluation.TwoClassesDiffer | Predict/app/services/predictor_service.py:1060 | two distinct labels remain exactly when two kept rows carry different labels |
| Evaluation.CountIsCardinality | Predict/app/services/predictor_service.py:1056-1059 | each confusion count is the number of positions with that (label, class) pair |
| Evaluation.CountsPartition | Predict/app/services/predictor_service.py:1056-1059 | each kept position falls in exactly one cell of the confusion matrix |
| Evaluation.AccuracyIsAgreement | Predict/app/services/predictor_service.py:1056 | accuracy's numerator is the number of positions where label and class agree |
| Evaluation.F1IsHarmonicMean | Predict/app/services/predictor_service.py:1059 | F1 in count form is 0 with no true positive; it is the harmonic mean of precision and recall when their sum is positive, and 0 otherwise |
| Evaluation.OnlyQualifyingRowsCount | Predict/app/services/predictor_service.py:1046-1052 | rows that are not kept do not influence the evaluation |
| Evaluation.EnsembleRowsHaveScores | Predict/app/services/predictor_service.py:1046-1051 | on the ensemble's output, every kept row has a probability, so AUC never sees a null score |
| Registry.Lower | Predict/app/services/predictor_service.py:171 | lower-casing keeps the length and lower-cases each character |
| Registry.ContainsAt | Predict/app/services/predictor_service.py:171 | the substring test holds exactly when the key occurs at some position |
| Registry.FirstWhere | Predict/app/services/predictor_service.py:156-165 | the first accepted name in order, or nothing when none is accepted |
| Registry.ScanCandidates | Predict/app/services/predictor_service.py:171 | the scan candidates are exactly the listed files whose lower-cased name contains the lower-cased key |
| Registry.Resolve | Predict/app/services/predictor_service.py:138-186 | a usable primary file wins; otherwise the first usable fallback iff there is one; otherwise a loading scan candidate, else the mock |
| Registry.CreateMockModels | Predict/app/services/predictor_service.py:188-241 | without sklearn nothing is registered; otherwise each key in order, holding a mock exactly when it can be built |
| Registry.LoadModels | Predict/app/services/predictor_service.py:106-186 | a missing directory gives an empty registry; an empty listable one gives the mocks; otherwise the four keys in order, each resolved |
| Registry.Available | Predict/app/services/predictor_service.py:263 | the available models are exactly the keys holding a model, with their display names |
| Registry.GetAvailableModels | Predict/app/services/predictor_service.py:247-270 | a registry with a model is kept; one with none is reloaded; a missing directory with an empty registry gets the mocks if any can be built. The result lists exactly the keys holding a model |
| Registry.LoadedWellKeyed | Predict/app/services/predictor_service.py:134-186 | the loaded registry has distinct keys, each a known model |
| Registry.RandomForestFileUnscanned | Predict/app/services/predictor_service.py:171 | the scan never picks `Random Forest_model.pkl` for `random_forest` (space versus underscore) |
| Registry.XGBoostFileScanned | Predict/app/services/predictor_service.py:171 | the scan does pick `XGBoost_model.pkl` for `xgboost` when it is listed |

## Left out

- PDF report generation and font registration. They only render output.
- File upload, CSV/Excel reading and writing, UUIDs and result paths, and the template generator. These are I/O.
- The per-model result columns of the batch files, the Excel sheets and the error wrapping of `process_batch_file*`. These are I/O.
- `joblib.load`, sklearn and XGBoost internals. They are abstract call functions and a "loads" predicate.
- The random data the mock models are fitted on. A mock is a `MockModel(key)` handle.
- `roc_auc_score` is an abstract function that returns `None` when it raises. Only the guard around it (0 with fewer than two classes) is modelled.
- XGBoost's `feature_importances_` ranking in `predict_single`. Its values come from the foreign model, and the sort is presentation only.
- IEEE doubles: values are `real`. NaN is kept as its own case. Infinities, rounding and `int(pred)` truncation are not modelled.
- Evaluation labels are `Option<Bit>`. Non-binary labels, and labels that are not numbers, are not modelled.
- `Raw` cells are text or numbers. Booleans, lists and other Python objects are not modelled.
- Python's `float(...)` and pandas' `to_numeric` share one abstract `Parser`. A number cell converts to itself on both paths.
- Logging, directory creation, import-time loading, and the module-global `models` dictionary. The registry is passed explicitly.
- Ensemble.BatchCall: a vectorised `predict_proba` or `predict` call is modelled as all-or-nothing over per-row calls. Partial or row-dependent failures inside a vectorised call are not modelled.
- Ensemble.PredictSingle: `predict_single` raises only on an empty registry. The result's prediction and probability maps are the outcome list, one entry per loaded model in dictionary order.
- BatchInput.NormalizeBatchSlots: the median branch of the numeric fill (lines 563-568) is proved unreachable, so the model has no median. The final fill with 0 (lines 585-588) is kept but can never fire on a numeric feature.
- Registry.Lower: lower-cases ASCII letters only. Python's `str.lower` also folds non-ASCII letters; no key or file name here needs that.
- Registry.Resolve: for the scan step it states that the chosen file is a listed, matching, loadable one, not that it is the first such file in listing order. The function itself picks the first.
- Registry.Resolve: file existence is membership in the directory's file list, compared case-sensitively.

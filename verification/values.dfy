/** The values that flow through the inference pipeline: raw cells as a caller
    or a spreadsheet delivers them, numbers as the pipeline's floats hold them,
    and the feature rows the classifiers consume. */
module Values {
  import opened Wrappers

  /** A double as the pipeline observes it: NaN, or a finite value.
      Rounding and infinities are not modelled. */
  datatype Float = NaN | Finite(value: real)

  /** One raw field value or spreadsheet cell: text, or a number. */
  datatype Raw = Text(text: string) | Number(num: Float)

  /** A single record, or one row of an uploaded table, keyed by column name.
      A key that is absent and a key that holds None both read as null. */
  type Record = map<string, Option<Raw>>

  /** Python's `float(text)` (and pandas' per-cell numeric coercion) on a string:
      None when the text does not parse; it may yield NaN ("nan"). */
  type Parser = string -> Option<Float>

  /** One row of model input, in feature order. */
  type FeatureRow = seq<real>

  /** A feature table: column names and rows of values under them. */
  datatype FeatureTable = FeatureTable(columns: seq<string>, rows: seq<FeatureRow>)

  /** A positive-class probability as `predict_proba` reports it. */
  type Prob = r: real | 0.0 <= r <= 1.0

  /** A binary class label. */
  type Bit = b: int | 0 <= b <= 1

  /** `data.get(field)`: the value under a key, None when absent. */
  function Get(r: Record, field: string): Option<Raw> {
    if field in r then r[field] else None
  }

  /** pandas' `isna` on a cell: None and NaN are both null. */
  predicate IsNull(c: Option<Raw>) {
    c.None? || c.value == Number(NaN)
  }

  /** Python's `float(v)` on a raw value; None when it raises. */
  function ToFloat(v: Raw, parse: Parser): Option<Float> {
    match v
    case Number(x) => Some(x)
    case Text(s) => parse(s)
  }
}

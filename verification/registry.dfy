/** Model registry resolution of Predict/app/services/predictor_service.py:
    `load_models` (lines 106-186), `_create_mock_models` and
    `_create_mock_model` (188-241) and `get_available_models` (247-270). The
    file system and the libraries are parameters: a directory listing, whether
    `joblib.load` succeeds on a file, and whether a mock model can be built. */
module Registry {
  import opened Wrappers
  import opened Ensemble

  /** The keys of `MODEL_NAMES` in dictionary order (lines 68-73). */
  const ModelKeys: seq<string> := ["xgboost", "random_forest", "logistic_regression", "naive_bayes"]

  /** `MODEL_NAMES`: the display name of each model (lines 68-73). */
  const ModelNames: map<string, string> := map[
    "xgboost" := "XGBoost模型",
    "random_forest" := "随机森林模型",
    "logistic_regression" := "逻辑回归模型",
    "naive_bayes" := "朴素贝叶斯模型"
  ]

  /** `model_name_mapping`: the primary file of each model (lines 91-96). */
  const CanonicalFiles: map<string, string> := map[
    "xgboost" := "XGBoost_model.pkl",
    "random_forest" := "Random Forest_model.pkl",
    "logistic_regression" := "Logistic Regression_model.pkl",
    "naive_bayes" := "Naive Bayes_model.pkl"
  ]

  /** `fallback_model_patterns`: the alternative files, tried in order (lines 99-104). */
  const FallbackFiles: map<string, seq<string>> := map[
    "xgboost" := ["xgboost_model.pkl", "xgboost.pkl", "XGBoost.pkl", "XGBoost.model"],
    "random_forest" := ["random_forest_model.pkl", "random_forest.pkl", "RandomForest.pkl", "RandomForest.model"],
    "logistic_regression" := ["logistic_regression_model.pkl", "logistic_regression.pkl",
                              "LogisticRegression.pkl", "LogisticRegression.model"],
    "naive_bayes" := ["naive_bayes_model.pkl", "naive_bayes.pkl", "NaiveBayes.pkl", "NaiveBayes.model"]
  ]

  /** Where a registry entry's model came from: a file joblib loaded, or a
      mock fitted on random data. */
  datatype Handle = Artifact(file: string) | MockModel(key: string)

  /** The model directory: absent, or present with the names of its files.
      `listable` is false when listing it raises (lines 129-131); the files
      are still there for the existence checks. */
  datatype Directory = Missing | Present(files: seq<string>, listable: bool)

  /** What the surroundings decide: the directory, whether `joblib.load`
      succeeds on a file, whether sklearn imports (lines 193-194), and whether
      a key's mock imports its library and fits (lines 207-237). */
  datatype Environment = Environment(dir: Directory, loads: string -> bool, sklearn: bool, mockFits: string -> bool)

  /** Every entry's key is one of `MODEL_NAMES`, as for every registry the
      service builds. */
  predicate WellKeyed(reg: seq<Entry<Handle>>) {
    forall e :: e in reg ==> e.key in ModelNames
  }

  // ---------------------------------------------------------------------------
  // Strings

  /** `str.lower` on one character; only ASCII letters are folded. */
  function LowerChar(c: char): char {
    if 'A' <= c <= 'Z' then (c as int + 32) as char else c
  }

  function Lower(s: string): (t: string)
    ensures |t| == |s|
    ensures forall i :: 0 <= i < |s| ==> t[i] == LowerChar(s[i])
  {
    seq(|s|, i requires 0 <= i < |s| => LowerChar(s[i]))
  }

  /** `sub in s`, scanning from the left. */
  function Contains(s: string, sub: string): bool
    decreases |s|
  {
    if |sub| > |s| then false
    else if s[..|sub|] == sub then true
    else Contains(s[1..], sub)
  }

  /** `sub` occurs in `s` at offset i. */
  predicate OccursAt(s: string, sub: string, i: int) {
    0 <= i && i + |sub| <= |s| && s[i..i + |sub|] == sub
  }

  /** The scan finds `sub` exactly when it occurs at some offset. */
  lemma {:induction false} ContainsAt(s: string, sub: string)
    ensures Contains(s, sub) <==> exists i :: OccursAt(s, sub, i)
    decreases |s|
  {
    if |sub| <= |s| && s[..|sub|] != sub {
      ContainsAt(s[1..], sub);
      if exists i :: OccursAt(s, sub, i) {
        var i :| OccursAt(s, sub, i);
        assert i > 0;
        assert OccursAt(s[1..], sub, i - 1);
      }
      if exists i :: OccursAt(s[1..], sub, i) {
        var i :| OccursAt(s[1..], sub, i);
        assert OccursAt(s, sub, i + 1);
      }
    } else if |sub| <= |s| {
      assert OccursAt(s, sub, 0);
    }
  }

  // ---------------------------------------------------------------------------
  // Resolution

  /** The first name the predicate accepts. */
  function FirstWhere(names: seq<string>, accept: string -> bool): (r: Option<string>)
    ensures r.None? <==> forall i :: 0 <= i < |names| ==> !accept(names[i])
    ensures r.Some? ==> exists i :: 0 <= i < |names| && names[i] == r.value && accept(r.value) &&
                                   (forall j :: 0 <= j < i ==> !accept(names[j]))
  {
    if names == [] then None
    else if accept(names[0]) then Some(names[0])
    else
      var r := FirstWhere(names[1..], accept);
      assert forall i :: 1 <= i < |names| ==> names[i] == names[1..][i - 1];
      if r.Some? then
        var i :| 0 <= i < |names[1..]| && names[1..][i] == r.value && accept(r.value) &&
                 (forall j :: 0 <= j < i ==> !accept(names[1..][j]));
        assert names[i + 1] == r.value;
        r
      else r
  }

  /** `potential_files` (line 171): listed files whose lower-cased name
      contains the key. */
  function ScanCandidates(listing: seq<string>, key: string): (fs: seq<string>)
    ensures forall f :: f in fs <==> f in listing && Contains(Lower(f), Lower(key))
  {
    if listing == [] then []
    else
      var rest := ScanCandidates(listing[1..], key);
      if Contains(Lower(listing[0]), Lower(key)) then [listing[0]] + rest else rest
  }

  /** `_create_mock_model` (lines 199-241): a fitted mock, or None when an
      import or the fit raises. */
  function Mock(env: Environment, key: string): Option<Handle> {
    if env.sklearn && env.mockFits(key) then Some(MockModel(key)) else None
  }

  /** One key's pass through `load_models` (lines 140-184): the primary
      file, then the fallbacks in order, then the scan over the listing, then
      a mock. `listing` is what the scan sees. */
  function Resolve(env: Environment, files: seq<string>, listing: seq<string>, key: string): (r: Option<Handle>)
    requires key in ModelNames
    ensures var canonical := CanonicalFiles[key];
      r == Some(Artifact(canonical)) <== canonical in files && env.loads(canonical)
    ensures var canonical := CanonicalFiles[key];
      var fallbacks := FallbackFiles[key];
      !(canonical in files && env.loads(canonical)) ==>
        ((exists i :: 0 <= i < |fallbacks| && fallbacks[i] in files && env.loads(fallbacks[i])) <==>
         (exists i :: 0 <= i < |fallbacks| && r == Some(Artifact(fallbacks[i])) &&
                      fallbacks[i] in files && env.loads(fallbacks[i]) &&
                      (forall j :: 0 <= j < i ==> !(fallbacks[j] in files && env.loads(fallbacks[j])))))
    ensures var canonical := CanonicalFiles[key];
      var fallbacks := FallbackFiles[key];
      && !(canonical in files && env.loads(canonical))
      && (forall i :: 0 <= i < |fallbacks| ==> !(fallbacks[i] in files && env.loads(fallbacks[i])))
      ==>
      if exists f :: f in listing && Contains(Lower(f), Lower(key)) && env.loads(f)
      then exists f :: r == Some(Artifact(f)) && f in listing && Contains(Lower(f), Lower(key)) && env.loads(f)
      else r == Mock(env, key)
  {
    var usable := (f: string) => f in files && env.loads(f);
    var canonical := CanonicalFiles[key];
    if usable(canonical) then Some(Artifact(canonical))
    else
      match FirstWhere(FallbackFiles[key], usable)
      case Some(f) => Some(Artifact(f))
      case None =>
        match FirstWhere(ScanCandidates(listing, key), env.loads)
        case Some(f) => Some(Artifact(f))
        case None => Mock(env, key)
  }

  /** `_create_mock_models` (lines 188-197): a mock per key, or nothing at
      all when sklearn does not import. */
  function CreateMockModels(env: Environment): (reg: seq<Entry<Handle>>)
    ensures !env.sklearn ==> reg == []
    ensures env.sklearn ==> |reg| == |ModelKeys| && forall i :: 0 <= i < |reg| ==>
      reg[i].key == ModelKeys[i] && (reg[i].model.Some? <==> env.mockFits(ModelKeys[i])) &&
      (reg[i].model.Some? ==> reg[i].model.value == MockModel(ModelKeys[i]))
  {
    if !env.sklearn then []
    else seq(|ModelKeys|, i requires 0 <= i < |ModelKeys| => Entry(ModelKeys[i], Mock(env, ModelKeys[i])))
  }

  /** `load_models`: the registry it leaves behind. */
  function LoadModels(env: Environment): (reg: seq<Entry<Handle>>)
    ensures env.dir.Missing? ==> reg == []
    ensures env.dir.Present? && env.dir.listable && env.dir.files == [] ==> reg == CreateMockModels(env)
    ensures env.dir.Present? && !(env.dir.listable && env.dir.files == []) ==>
      |reg| == |ModelKeys| && forall i :: 0 <= i < |reg| ==>
        && reg[i].key == ModelKeys[i]
        && reg[i].model == Resolve(env, env.dir.files, if env.dir.listable then env.dir.files else [], ModelKeys[i])
  {
    match env.dir
    case Missing => []
    case Present(files, listable) =>
      if listable && files == [] then CreateMockModels(env)
      else
        var listing := if listable then files else [];
        seq(|ModelKeys|, i requires 0 <= i < |ModelKeys| =>
          Entry(ModelKeys[i], Resolve(env, files, listing, ModelKeys[i])))
  }

  /** The keys and display names of the entries holding a model (line 263). */
  function Available(reg: seq<Entry<Handle>>): (a: seq<(string, string)>)
    requires WellKeyed(reg)
    ensures forall k, n :: (k, n) in a <==>
      (exists h :: Entry(k, Some(h)) in reg) && k in ModelNames && n == ModelNames[k]
  {
    var l := Loaded(reg);
    assert forall i :: 0 <= i < |l| ==> Entry(l[i].0, Some(l[i].1)) in reg;
    var a := seq(|l|, i requires 0 <= i < |l| => (l[i].0, ModelNames[l[i].0]));
    forall k, n | (exists h :: Entry(k, Some(h)) in reg) && k in ModelNames && n == ModelNames[k]
      ensures (k, n) in a
    {
      var h :| Entry(k, Some(h)) in reg;
      var j :| 0 <= j < |reg| && reg[j] == Entry(k, Some(h));
      var i :| 0 <= i < |l| && l[i] == (k, h);
      assert a[i] == (k, n);
    }
    a
  }

  /** `get_available_models`: the registry after its repairs, and the
      available models. */
  function GetAvailableModels(env: Environment, current: seq<Entry<Handle>>)
    : (r: (seq<Entry<Handle>>, seq<(string, string)>))
    requires WellKeyed(current)
    ensures forall k, n :: (k, n) in r.1 <==>
      (exists h :: Entry(k, Some(h)) in r.0) && k in ModelNames && n == ModelNames[k]
    ensures (exists i :: 0 <= i < |current| && current[i].model.Some?) ==> r.0 == current
    ensures (forall i :: 0 <= i < |current| ==> current[i].model.None?) && !(env.dir.Missing? && current == []) ==>
      r.0 == LoadModels(env)
    ensures env.dir.Missing? && current == [] ==>
      r.0 == if env.sklearn && exists i :: 0 <= i < |ModelKeys| && env.mockFits(ModelKeys[i])
             then CreateMockModels(env) else []
  {
    var mocked := if env.dir.Missing? && current == [] then CreateMockModels(env) else current;
    var reg := if forall i :: 0 <= i < |mocked| ==> mocked[i].model.None? then LoadModels(env) else mocked;
    LoadedWellKeyed(env);
    MocksWellKeyed(env);
    (reg, Available(reg))
  }

  // ---------------------------------------------------------------------------
  // Lemmas

  lemma MocksWellKeyed(env: Environment)
    ensures WellKeyed(CreateMockModels(env))
    ensures KeysDistinct(CreateMockModels(env))
  {
  }

  /** Every registry `load_models` builds has distinct keys drawn from
      `MODEL_NAMES`. */
  lemma LoadedWellKeyed(env: Environment)
    ensures WellKeyed(LoadModels(env))
    ensures KeysDistinct(LoadModels(env))
  {
    MocksWellKeyed(env);
  }

  /** The scan at line 171 never matches the primary random-forest file: its
      name has a space where the key has an underscore. */
  lemma RandomForestFileUnscanned(listing: seq<string>)
    ensures CanonicalFiles["random_forest"] !in ScanCandidates(listing, "random_forest")
  {
    RandomForestNameUnmatched();
  }

  lemma RandomForestNameUnmatched()
    ensures !Contains(Lower("Random Forest_model.pkl"), Lower("random_forest"))
  {
    LowerRandomForest();
    assert Lower("random_forest") == "random_forest";
    NoUnderscoreMatch("random forest_model.pkl", "random_forest");
  }

  lemma LowerRandomForest()
    ensures Lower("Random Forest_model.pkl") == "random forest_model.pkl"
  {
  }

  /** The key's underscore falls on the file name's only underscore solely at
      offset 7, where the first letters already differ. */
  lemma NoUnderscoreMatch(s: string, key: string)
    requires s == "random forest_model.pkl" && key == "random_forest"
    ensures !Contains(s, key)
  {
    ContainsAt(s, key);
    forall i | 0 <= i <= |s| - |key|
      ensures !OccursAt(s, key, i)
    {
      if i == 7 {
        assert s[7] != key[0];
      } else {
        assert s[i + 6] != key[6];
      }
    }
  }

  /** The scan does match the primary XGBoost file, whose name contains the
      key once lower-cased. */
  lemma XGBoostFileScanned(listing: seq<string>)
    requires CanonicalFiles["xgboost"] in listing
    ensures CanonicalFiles["xgboost"] in ScanCandidates(listing, "xgboost")
  {
    XGBoostNameMatched();
  }

  lemma XGBoostNameMatched()
    ensures Contains(Lower("XGBoost_model.pkl"), Lower("xgboost"))
  {
    LowerXGBoost();
    var s := "xgboost_model.pkl";
    ContainsAt(s, "xgboost");
    assert OccursAt(s, "xgboost", 0);
  }

  lemma LowerXGBoost()
    ensures Lower("XGBoost_model.pkl") == "xgboost_model.pkl"
    ensures Lower("xgboost") == "xgboost"
  {
  }
}

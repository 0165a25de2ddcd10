/** The Blueprint validator (kernel/company_blueprint/validator.py). */
module Blueprint {
  import opened Common
  import opened Json
  import opened Text

  /** The words a Blueprint may use; the capabilities are in sorted order. */
  datatype Vocabulary = Vocabulary(businessTypes: set<string>, priorities: set<string>, capabilities: seq<string>)

  const ORBIT := Vocabulary(
    {"retail", "services", "agriculture", "manufacturing", "technology", "logistics_transportation",
     "construction_real_estate", "hospitality_tourism", "healthcare", "education", "financial_services",
     "insurance", "wholesale_distribution", "energy_utilities", "telecommunications", "automotive",
     "pharmaceuticals", "media_entertainment", "nonprofits_ngos", "government_public_sector",
     "mining_natural_resources", "import_export_trading", "property_management",
     "food_processing_agribusiness", "security_services", "cleaning_facility_management",
     "recruitment_hr", "travel_aviation", "fisheries_aquaculture", "professional_associations", "other"},
    {"cash_flow_visibility", "expense_control", "payroll_accuracy", "fraud_and_risk_alerts", "growth_forecasting"},
    ["anomaly", "connector", "forecast", "health", "spend", "trend"])

  /** The validator's surroundings: its vocabulary, and Python's `float` on text. */
  datatype Env = Env(words: Vocabulary, readFloat: string -> Option<real>)

  /** The dictionary a caller sends; None is an absent key. */
  datatype Payload = Payload(businessType: Option<Json>, priorities: Option<Json>, threshold: Option<Json>,
                             notify: Option<Json>, digest: Option<Json>,
                             capabilities: Option<Json>, categories: Option<Json>)

  /** The seven content fields of a Blueprint. */
  datatype Content = Content(businessType: string, priorities: seq<string>, threshold: Option<real>,
                             notify: bool, digest: bool,
                             capabilities: seq<string>, categories: Option<seq<string>>)

  datatype BlueprintError =
    | UnknownBusinessType | PrioritiesNotText | UnknownPriorities
    | ThresholdNotNumeric | ThresholdNegative
    | CapabilitiesNotText | CapabilitiesEmpty | UnknownCapabilities
    | CategoriesNotText
    | NoSuchVersion
    | Crash  // an AttributeError or KeyError, which no handler expects

  function OrNull(o: Option<Json>): Json {
    match o case Some(j) => j case None => JNull
  }

  // ---------- field by field ----------

  predicate AllText(items: seq<Json>) {
    forall i :: 0 <= i < |items| ==> items[i].JStr?
  }

  function Texts(items: seq<Json>): (r: seq<string>)
    requires AllText(items)
    ensures |r| == |items| && forall i :: 0 <= i < |r| ==> items[i] == JStr(r[i])
  {
    seq(|items|, i requires 0 <= i < |items| => items[i].s)
  }

  function FromTexts(texts: seq<string>): (r: seq<Json>)
    ensures |r| == |texts| && forall i :: 0 <= i < |r| ==> r[i] == JStr(texts[i])
  {
    seq(|texts|, i requires 0 <= i < |texts| => JStr(texts[i]))
  }

  predicate Within(texts: seq<string>, words: set<string>) {
    forall i :: 0 <= i < |texts| ==> texts[i] in words
  }

  function WordSet(words: seq<string>): set<string> {
    set w | w in words
  }

  function CleanBusinessType(words: set<string>, raw: Json): Result<string, BlueprintError> {
    if Truthy(raw) && !raw.JStr? then Err(Crash)
    else
      var text := Strip(if Truthy(raw) then raw.s else "");
      if text in words then Ok(text) else Err(UnknownBusinessType)
  }

  function CleanPriorities(words: set<string>, raw: Json): Result<seq<string>, BlueprintError> {
    if !Truthy(raw) then Ok([])
    else if !raw.JArr? || !AllText(raw.items) then Err(PrioritiesNotText)
    else if !Within(Texts(raw.items), words) then Err(UnknownPriorities)
    else Ok(Texts(raw.items))
  }

  /** Python's `float` on a decoded value. */
  function ReadFloat(readFloat: string -> Option<real>, j: Json): Option<real> {
    match j
    case JNum(n) => Some(n)
    case JBool(b) => Some(if b then 1.0 else 0.0)
    case JStr(s) => readFloat(s)
    case _ => None
  }

  predicate Blank(j: Json) {
    j == JNull || j == JStr("")
  }

  function CleanThreshold(env: Env, raw: Json): Result<Option<real>, BlueprintError> {
    if Blank(raw) then Ok(None)
    else
      match ReadFloat(env.readFloat, raw)
      case None => Err(ThresholdNotNumeric)
      case Some(x) => if x < 0.0 then Err(ThresholdNegative) else Ok(Some(x))
  }

  function CleanCapabilities(words: seq<string>, raw: Json): Result<seq<string>, BlueprintError> {
    if raw == JNull then Ok(words)
    else if !raw.JArr? || !AllText(raw.items) then Err(CapabilitiesNotText)
    else if raw.items == [] then Err(CapabilitiesEmpty)
    else if !Within(Texts(raw.items), WordSet(words)) then Err(UnknownCapabilities)
    else Ok(Texts(raw.items))
  }

  function StripAll(texts: seq<string>): (r: seq<string>)
    ensures |r| == |texts| && forall i :: 0 <= i < |r| ==> r[i] == Strip(texts[i])
  {
    seq(|texts|, i requires 0 <= i < |texts| => Strip(texts[i]))
  }

  predicate NoneBlank(texts: seq<string>) {
    forall i :: 0 <= i < |texts| ==> Strip(texts[i]) != ""
  }

  function CleanCategories(raw: Json): Result<Option<seq<string>>, BlueprintError> {
    if Blank(raw) then Ok(None)
    else if !raw.JArr? || !AllText(raw.items) || !NoneBlank(Texts(raw.items)) then Err(CategoriesNotText)
    else if raw.items == [] then Ok(None)
    else Ok(Some(StripAll(Texts(raw.items))))
  }

  /** `bool(payload.get(key, True))`: absent is on, null is off. */
  function CleanFlag(o: Option<Json>): bool {
    match o case Some(j) => Truthy(j) case None => true
  }

  /** The whole validator, checks in source order. */
  function Validate(env: Env, p: Payload): Result<Content, BlueprintError> {
    match CleanBusinessType(env.words.businessTypes, OrNull(p.businessType))
    case Err(e) => Err(e)
    case Ok(businessType) =>
      match CleanPriorities(env.words.priorities, OrNull(p.priorities))
      case Err(e) => Err(e)
      case Ok(priorities) =>
        match CleanThreshold(env, OrNull(p.threshold))
        case Err(e) => Err(e)
        case Ok(threshold) =>
          match CleanCapabilities(env.words.capabilities, OrNull(p.capabilities))
          case Err(e) => Err(e)
          case Ok(capabilities) =>
            match CleanCategories(OrNull(p.categories))
            case Err(e) => Err(e)
            case Ok(categories) =>
              Ok(Content(businessType, priorities, threshold, CleanFlag(p.notify), CleanFlag(p.digest),
                         capabilities, categories))
  }

  // ---------- what is accepted, apart from how it is checked ----------

  /** Python's `float` reads the value as x. */
  predicate ReadsAs(readFloat: string -> Option<real>, j: Json, x: real) {
    || j == JNum(x)
    || (j == JBool(true) && x == 1.0)
    || (j == JBool(false) && x == 0.0)
    || (j.JStr? && readFloat(j.s) == Some(x))
  }

  lemma ReadFloatReads(readFloat: string -> Option<real>, j: Json)
    ensures forall x :: ReadFloat(readFloat, j) == Some(x) <==> ReadsAs(readFloat, j, x)
  {
  }

  /** The key is absent, or says null, false, zero or something empty. */
  predicate SaysNothing(o: Option<Json>) {
    o.None? || Falsy(o.value)
  }

  /** Nothing, which leaves the empty text, or text, from which whitespace at the ends is dropped. */
  predicate BusinessTypeIs(words: set<string>, o: Option<Json>, b: string) {
    && b in words
    && (SaysNothing(o) || o.value.JStr?)
    && b == if SaysNothing(o) then "" else Strip(o.value.s)
  }

  /** A list of the given texts, each a known word. */
  predicate ListsWords(j: Json, words: set<string>, texts: seq<string>) {
    && j.JArr? && |j.items| == |texts|
    && forall i :: 0 <= i < |texts| ==> j.items[i] == JStr(texts[i]) && texts[i] in words
  }

  predicate PrioritiesAre(words: set<string>, o: Option<Json>, priorities: seq<string>) {
    if SaysNothing(o) then priorities == [] else ListsWords(o.value, words, priorities)
  }

  /** Absent, null or an empty text: none; otherwise what `float` reads, unless it is negative. */
  predicate ThresholdIs(readFloat: string -> Option<real>, o: Option<Json>, threshold: Option<real>) {
    if o in [None, Some(JNull), Some(JStr(""))] then threshold.None?
    else threshold.Some? && threshold.value >= 0.0 && ReadsAs(readFloat, o.value, threshold.value)
  }

  /** Absent or null: all; otherwise a list that names some. */
  predicate CapabilitiesAre(words: seq<string>, o: Option<Json>, capabilities: seq<string>) {
    if o in [None, Some(JNull)] then capabilities == words
    else capabilities != [] && ListsWords(o.value, (set w | w in words), capabilities)
  }

  /** Absent, null, or an empty text or list: none; otherwise texts, each stripped and not empty then. */
  predicate CategoriesAre(o: Option<Json>, categories: Option<seq<string>>) {
    if o in [None, Some(JNull), Some(JStr("")), Some(JArr([]))] then categories.None?
    else
      && categories.Some? && o.value.JArr? && |o.value.items| == |categories.value|
      && forall i :: 0 <= i < |categories.value| ==>
           && o.value.items[i].JStr?
           && categories.value[i] == Strip(o.value.items[i].s) && categories.value[i] != ""
  }

  /** On unless the key says something falsy. */
  predicate FlagIs(o: Option<Json>, flag: bool) {
    flag <==> o.None? || !Falsy(o.value)
  }

  predicate AcceptedAs(env: Env, p: Payload, c: Content) {
    && BusinessTypeIs(env.words.businessTypes, p.businessType, c.businessType)
    && PrioritiesAre(env.words.priorities, p.priorities, c.priorities)
    && ThresholdIs(env.readFloat, p.threshold, c.threshold)
    && CapabilitiesAre(env.words.capabilities, p.capabilities, c.capabilities)
    && CategoriesAre(p.categories, c.categories)
    && FlagIs(p.notify, c.notify) && FlagIs(p.digest, c.digest)
  }

  lemma BusinessTypeMeans(words: set<string>, o: Option<Json>, b: string)
    ensures CleanBusinessType(words, OrNull(o)) == Ok(b) <==> BusinessTypeIs(words, o, b)
  {
    TruthyUnlessFalsy(OrNull(o));
    assert Strip("") == "";
  }

  lemma TextsIf(items: seq<Json>, texts: seq<string>)
    requires |items| == |texts| && forall i :: 0 <= i < |texts| ==> items[i] == JStr(texts[i])
    ensures AllText(items) && Texts(items) == texts
  {
    forall i | 0 <= i < |texts|
      ensures items[i].JStr? && items[i].s == texts[i]
    {
    }
  }

  lemma WordsListed(j: Json, words: set<string>, texts: seq<string>)
    requires j.JArr?
    ensures ListsWords(j, words, texts) <==> AllText(j.items) && Texts(j.items) == texts && Within(texts, words)
  {
    if ListsWords(j, words, texts) {
      TextsIf(j.items, texts);
    }
  }

  lemma PrioritiesMean(words: set<string>, o: Option<Json>, priorities: seq<string>)
    ensures CleanPriorities(words, OrNull(o)) == Ok(priorities) <==> PrioritiesAre(words, o, priorities)
  {
    TruthyUnlessFalsy(OrNull(o));
    if OrNull(o).JArr? {
      WordsListed(OrNull(o), words, priorities);
    }
  }

  lemma ThresholdMeans(env: Env, o: Option<Json>, threshold: Option<real>)
    ensures CleanThreshold(env, OrNull(o)) == Ok(threshold) <==> ThresholdIs(env.readFloat, o, threshold)
  {
    ReadFloatReads(env.readFloat, OrNull(o));
  }

  lemma CapabilitiesMean(words: seq<string>, o: Option<Json>, capabilities: seq<string>)
    ensures CleanCapabilities(words, OrNull(o)) == Ok(capabilities) <==> CapabilitiesAre(words, o, capabilities)
  {
    if OrNull(o).JArr? {
      WordsListed(OrNull(o), WordSet(words), capabilities);
    }
  }

  lemma CategoriesMean(o: Option<Json>, categories: Option<seq<string>>)
    ensures CleanCategories(OrNull(o)) == Ok(categories) <==> CategoriesAre(o, categories)
  {
    var j := OrNull(o);
    if j.JArr? && j.items != [] {
      if CategoriesAre(o, categories) {
        assert AllText(j.items);
        assert StripAll(Texts(j.items)) == categories.value;
      }
    }
  }

  /** The validator accepts exactly these payloads, each as exactly this Blueprint. */
  lemma ValidateMeans(env: Env, p: Payload, c: Content)
    ensures Validate(env, p) == Ok(c) <==> AcceptedAs(env, p, c)
  {
    BusinessTypeMeans(env.words.businessTypes, p.businessType, c.businessType);
    PrioritiesMean(env.words.priorities, p.priorities, c.priorities);
    ThresholdMeans(env, p.threshold, c.threshold);
    CapabilitiesMean(env.words.capabilities, p.capabilities, c.capabilities);
    CategoriesMean(p.categories, c.categories);
    if p.notify.Some? {
      TruthyUnlessFalsy(p.notify.value);
    }
    if p.digest.Some? {
      TruthyUnlessFalsy(p.digest.value);
    }
  }

  /** The field an error speaks of, in the order they are checked. */
  function FieldOf(e: BlueprintError): nat {
    match e
    case UnknownBusinessType | Crash => 0
    case PrioritiesNotText | UnknownPriorities => 1
    case ThresholdNotNumeric | ThresholdNegative => 2
    case CapabilitiesNotText | CapabilitiesEmpty | UnknownCapabilities => 3
    case _ => 4
  }

  /** The field can be read. */
  ghost predicate FieldAccepted(env: Env, p: Payload, field: nat) {
    match field
    case 0 => exists b :: BusinessTypeIs(env.words.businessTypes, p.businessType, b)
    case 1 => exists priorities :: PrioritiesAre(env.words.priorities, p.priorities, priorities)
    case 2 => exists threshold :: ThresholdIs(env.readFloat, p.threshold, threshold)
    case 3 => exists capabilities :: CapabilitiesAre(env.words.capabilities, p.capabilities, capabilities)
    case _ => exists categories :: CategoriesAre(p.categories, categories)
  }

  lemma FieldsDecide(env: Env, p: Payload)
    ensures CleanBusinessType(env.words.businessTypes, OrNull(p.businessType)).Ok? <==> FieldAccepted(env, p, 0)
    ensures CleanPriorities(env.words.priorities, OrNull(p.priorities)).Ok? <==> FieldAccepted(env, p, 1)
    ensures CleanThreshold(env, OrNull(p.threshold)).Ok? <==> FieldAccepted(env, p, 2)
    ensures CleanCapabilities(env.words.capabilities, OrNull(p.capabilities)).Ok? <==> FieldAccepted(env, p, 3)
    ensures CleanCategories(OrNull(p.categories)).Ok? <==> FieldAccepted(env, p, 4)
  {
    forall b
      ensures CleanBusinessType(env.words.businessTypes, OrNull(p.businessType)) == Ok(b) <==>
                BusinessTypeIs(env.words.businessTypes, p.businessType, b)
    {
      BusinessTypeMeans(env.words.businessTypes, p.businessType, b);
    }
    forall t
      ensures CleanPriorities(env.words.priorities, OrNull(p.priorities)) == Ok(t) <==>
                PrioritiesAre(env.words.priorities, p.priorities, t)
    {
      PrioritiesMean(env.words.priorities, p.priorities, t);
    }
    forall t
      ensures CleanThreshold(env, OrNull(p.threshold)) == Ok(t) <==> ThresholdIs(env.readFloat, p.threshold, t)
    {
      ThresholdMeans(env, p.threshold, t);
    }
    forall t
      ensures CleanCapabilities(env.words.capabilities, OrNull(p.capabilities)) == Ok(t) <==>
                CapabilitiesAre(env.words.capabilities, p.capabilities, t)
    {
      CapabilitiesMean(env.words.capabilities, p.capabilities, t);
    }
    forall t
      ensures CleanCategories(OrNull(p.categories)) == Ok(t) <==> CategoriesAre(p.categories, t)
    {
      CategoriesMean(p.categories, t);
    }
  }

  /** A refusal speaks of the first field that cannot be read. */
  lemma RefusalIsFirst(env: Env, p: Payload)
    ensures Validate(env, p).Err? ==>
              var field := FieldOf(Validate(env, p).error);
              !FieldAccepted(env, p, field) && forall earlier :: 0 <= earlier < field ==> FieldAccepted(env, p, earlier)
  {
    FieldsDecide(env, p);
  }

  // ---------- the validator's image ----------

  /** `Blueprint.to_dict`, as the snapshot holds it. */
  function Snapshot(c: Content): Payload {
    Payload(Some(JStr(c.businessType)),
            Some(JArr(FromTexts(c.priorities))),
            Some(match c.threshold case Some(x) => JNum(x) case None => JNull),
            Some(JBool(c.notify)),
            Some(JBool(c.digest)),
            Some(JArr(FromTexts(c.capabilities))),
            Some(match c.categories case Some(cs) => JArr(FromTexts(cs)) case None => JNull))
  }

  predicate Stripped(texts: seq<string>) {
    forall i :: 0 <= i < |texts| ==> texts[i] != "" && Strip(texts[i]) == texts[i]
  }

  predicate WellFormed(words: Vocabulary, c: Content) {
    && c.businessType in words.businessTypes && Strip(c.businessType) == c.businessType
    && Within(c.priorities, words.priorities)
    && (c.threshold.Some? ==> c.threshold.value >= 0.0)
    && c.capabilities != [] && Within(c.capabilities, WordSet(words.capabilities))
    && (c.categories.Some? ==> c.categories.value != [] && Stripped(c.categories.value))
  }

  predicate Sensible(words: Vocabulary) {
    words.capabilities != [] && "" !in words.businessTypes
  }

  lemma OrbitIsSensible()
    ensures Sensible(ORBIT)
  {
  }

  lemma StripAllStripped(texts: seq<string>)
    requires NoneBlank(texts)
    ensures Stripped(StripAll(texts))
  {
    forall i | 0 <= i < |texts|
      ensures Strip(StripAll(texts)[i]) == StripAll(texts)[i]
    {
      StripIdempotent(texts[i]);
    }
  }

  lemma ValidateIsWellFormed(env: Env, p: Payload)
    requires Sensible(env.words)
    ensures Validate(env, p).Ok? ==> WellFormed(env.words, Validate(env, p).value)
  {
    var r := Validate(env, p);
    if r.Ok? {
      BusinessTypeStripped(env.words.businessTypes, OrNull(p.businessType));
      var raw := OrNull(p.categories);
      if !Blank(raw) && raw.items != [] {
        StripAllStripped(Texts(raw.items));
      }
    }
  }

  lemma BusinessTypeStripped(words: set<string>, raw: Json)
    ensures var r := CleanBusinessType(words, raw); r.Ok? ==> Strip(r.value) == r.value && r.value in words
  {
    if !Truthy(raw) || raw.JStr? {
      StripIdempotent(if Truthy(raw) then raw.s else "");
    }
  }

  lemma TextsRoundTrip(texts: seq<string>)
    ensures AllText(FromTexts(texts)) && Texts(FromTexts(texts)) == texts
  {
  }

  lemma CategoriesRoundTrip(categories: Option<seq<string>>)
    requires categories.Some? ==> categories.value != [] && Stripped(categories.value)
    ensures CleanCategories(match categories case Some(cs) => JArr(FromTexts(cs)) case None => JNull) == Ok(categories)
  {
    if categories.Some? {
      TextsRoundTrip(categories.value);
      assert StripAll(categories.value) == categories.value;
    }
  }

  lemma BusinessTypeRoundTrip(words: set<string>, text: string)
    requires text in words && text != "" && Strip(text) == text
    ensures CleanBusinessType(words, JStr(text)) == Ok(text)
  {
  }

  lemma PrioritiesRoundTrip(words: set<string>, texts: seq<string>)
    requires Within(texts, words)
    ensures CleanPriorities(words, JArr(FromTexts(texts))) == Ok(texts)
  {
    TextsRoundTrip(texts);
    if texts == [] {
      assert FromTexts(texts) == [];
    }
  }

  lemma CapabilitiesRoundTrip(words: seq<string>, texts: seq<string>)
    requires Within(texts, WordSet(words)) && texts != []
    ensures CleanCapabilities(words, JArr(FromTexts(texts))) == Ok(texts)
  {
    TextsRoundTrip(texts);
  }

  /** A well-formed Blueprint read back from its snapshot validates to itself. */
  lemma SnapshotValidates(env: Env, c: Content)
    requires Sensible(env.words) && WellFormed(env.words, c)
    ensures Validate(env, Snapshot(c)) == Ok(c)
  {
    BusinessTypeRoundTrip(env.words.businessTypes, c.businessType);
    PrioritiesRoundTrip(env.words.priorities, c.priorities);
    CapabilitiesRoundTrip(env.words.capabilities, c.capabilities);
    CategoriesRoundTrip(c.categories);
  }

  /** Idempotence: what validation accepts once it accepts again, unchanged. */
  lemma ValidateIdempotent(env: Env, p: Payload)
    requires Sensible(env.words)
    ensures Validate(env, p).Ok? ==> Validate(env, Snapshot(Validate(env, p).value)) == Validate(env, p)
  {
    ValidateIsWellFormed(env, p);
    if Validate(env, p).Ok? {
      SnapshotValidates(env, Validate(env, p).value);
    }
  }
}

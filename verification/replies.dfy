/** The three canned-reply chatbots: the React chat widget, the simplified
    React chatbot and the Flask chatbot endpoint. Each is a list of keyword
    branches for `Keywords.Respond` whose replies are canned answers; a
    canned answer's text is its exact wording in the source. */
module Replies {
  import opened Wrappers
  import opened Seqs
  import opened Text
  import opened Keywords

  // ---- The React chatbots' canned answers ----

  /** The answers of the two React chatbots; the simplified one uses four of them. */
  datatype Answer = VataInfo | NamasteInfo | AyushInfo | AccuracyInfo | ApiInfo | HelpInfo
                  | DiabetesInfo | HypertensionInfo | AsthmaInfo

  const WidgetVata := "Vata Vyadhi typically maps to ICD-11 code QD85.0 in the Traditional Medicine Module 2. This represents disorders related to Vata dosha imbalance in Ayurvedic medicine."
  const WidgetNamaste := "To map NAMASTE codes to ICD-11, use our API endpoint /v1/mappings/namaste/{code}. The system automatically provides the corresponding ICD-11 TM2 code with confidence scores."
  const WidgetAyush := "AYUSH (Ayurveda, Yoga, Unani, Siddha, Homeopathy) coding in NAMASTE provides culturally appropriate terminology, while ICD-11 TM2 offers global standardization for international interoperability."
  const WidgetAccuracy := "Our mapping accuracy is 95%+ with continuous validation by medical experts. We maintain version control and provide confidence scores for each mapping."
  const WidgetApi := "Our RESTful API supports authentication via OAuth 2.0, provides FHIR-compliant resources, and typically responds within 200-500ms with 99.9% uptime."
  const WidgetDefault := "I'm here to help with questions about NAMASTE-ICD11 mappings, API integration, and traditional medicine coding. You can ask about specific codes, implementation details, or general platform features."
  const WidgetDiabetes := "Diabetes Mellitus maps to NAMASTE code NAM-DM-001 and ICD-11 code EE90.0. This provides dual coding for comprehensive healthcare documentation."
  const WidgetHypertension := "Hypertension has NAMASTE code NAM-HTN-002 and ICD-11 code EE91.1. Both codes can be used simultaneously for complete medical records."
  const WidgetAsthma := "Asthma is coded as NAM-AST-003 in NAMASTE and CA23.0 in ICD-11 TM2. Our API provides these mappings instantly with validation."


  /** The wording of each answer. */
  function AnswerText(a: Answer): string
  {
    match a
    case VataInfo => WidgetVata
    case NamasteInfo => WidgetNamaste
    case AyushInfo => WidgetAyush
    case AccuracyInfo => WidgetAccuracy
    case ApiInfo => WidgetApi
    case HelpInfo => WidgetDefault
    case DiabetesInfo => WidgetDiabetes
    case HypertensionInfo => WidgetHypertension
    case AsthmaInfo => WidgetAsthma
  }

  /** Different answers read differently, so the text shown identifies the answer. */
  lemma AnswerTextsDistinct(a: Answer, b: Answer)
    requires a != b
    ensures AnswerText(a) != AnswerText(b)
  {
  }

  /** One entry of a JavaScript response table, in insertion order (the order `Object.entries` yields). */
  datatype Entry = Entry(key: string, answer: Answer)

  /** A table entry as a branch. The `default` entry is skipped while matching, so it becomes a branch without keywords. */
  function EntryRule(e: Entry): (r: Rule<Answer>)
    ensures r.reply == e.answer
    ensures e.key == "default" ==> forall lowered :: !Fires(r, lowered)
    ensures e.key != "default" ==> forall lowered :: Fires(r, lowered) <==> Includes(lowered, e.key)
  {
    Rule(if e.key == "default" then [] else [e.key], e.answer)
  }

  /** The value stored under `key`, or `None` (`undefined`). */
  function Lookup(entries: seq<Entry>, key: string): (r: Option<Answer>)
    ensures r.Some? ==> Entry(key, r.value) in entries
    ensures r.None? <==> forall e :: e in entries ==> e.key != key
  {
    match Find(entries, (e: Entry) => e.key == key)
    case None => None
    case Some(e) => Some(e.answer)
  }

  // ---- The chat widget ----

  /** The widget's response table, in declaration order. */
  const WidgetResponses: seq<Entry> := [
    Entry("vata", VataInfo), Entry("namaste", NamasteInfo), Entry("ayush", AyushInfo),
    Entry("accuracy", AccuracyInfo), Entry("api", ApiInfo), Entry("default", HelpInfo)
  ]

  /** The table scan (the `default` entry has no keywords), then the three disease checks. */
  const WidgetRules: seq<Rule<Answer>> := [
    Rule(["vata"], VataInfo), Rule(["namaste"], NamasteInfo), Rule(["ayush"], AyushInfo),
    Rule(["accuracy"], AccuracyInfo), Rule(["api"], ApiInfo), Rule([], HelpInfo),
    Rule(["diabetes"], DiabetesInfo), Rule(["hypertension"], HypertensionInfo), Rule(["asthma"], AsthmaInfo)
  ]

  /** The branch list is the response table read in order, followed by the disease checks. */
  lemma WidgetRulesFromTable()
    ensures WidgetRules == Map(WidgetResponses, EntryRule)
      + [Rule(["diabetes"], DiabetesInfo), Rule(["hypertension"], HypertensionInfo), Rule(["asthma"], AsthmaInfo)]
  {
    var table := Map(WidgetResponses, EntryRule);
    forall i | 0 <= i < 6 ensures table[i] == WidgetRules[i] {
      assert WidgetResponses[i].key != "default" <==> i != 5;
    }
    assert WidgetRules[..6] == table;
    assert WidgetRules == WidgetRules[..6] + WidgetRules[6..];
  }

  /** The fallback is the answer stored under the table's `default` key. */
  lemma WidgetDefaultLookup()
    ensures Lookup(WidgetResponses, "default") == Some(HelpInfo)
  {
    assert WidgetResponses[5] == Entry("default", HelpInfo);
  }

  /** The widget's answer to a message; the fallback is the table's `default` entry. */
  function WidgetAnswer(message: string): Answer
  {
    Respond(WidgetRules, HelpInfo, message)
  }

  /** The text the widget replies with. */
  function WidgetReply(message: string): string
  {
    AnswerText(WidgetAnswer(message))
  }

  /** The position of each answer in the widget's branch list. */
  function WidgetSlot(a: Answer): int
  {
    match a
    case VataInfo => 0
    case NamasteInfo => 1
    case AyushInfo => 2
    case AccuracyInfo => 3
    case ApiInfo => 4
    case HelpInfo => 5
    case DiabetesInfo => 6
    case HypertensionInfo => 7
    case AsthmaInfo => 8
  }

  lemma WidgetRepliesDistinct()
    ensures DistinctReplies(WidgetRules, HelpInfo)
  {
    DistinctBySlot(WidgetRules, HelpInfo, WidgetSlot);
  }

  /** The `default` key is never matched, even by a message containing "default". */
  lemma WidgetDefaultKeyNeverMatches(message: string)
    ensures !Fires(WidgetRules[5], Lower(message))
  {
  }

  /** The widget answers with branch `i` exactly when branch `i` is the first whose keyword the
      lower-cased message contains, and with the default answer exactly when there is none. */
  lemma WidgetPriority(message: string, i: nat)
    requires i < |WidgetRules| && i != 5
    ensures WidgetAnswer(message) == WidgetRules[i].reply <==> FirstFiring(WidgetRules, Lower(message), i)
    ensures WidgetAnswer(message) == HelpInfo <==> NoneFires(WidgetRules, Lower(message))
  {
    WidgetRepliesDistinct();
    RespondIdentifiesBranch(WidgetRules, HelpInfo, message, i);
    RespondFallbackIff(WidgetRules, HelpInfo, message);
  }

  /** "vata" comes first: any message mentioning it gets the Vata answer, whatever else it mentions. */
  lemma WidgetVataFirst(message: string)
    requires Includes(Lower(message), "vata")
    ensures WidgetAnswer(message) == VataInfo
  {
    assert Fires(WidgetRules[0], Lower(message));
    RespondFirstFiring(WidgetRules, HelpInfo, message, 0);
  }

  /** Table keywords take priority over the disease checks. */
  lemma WidgetVataBeatsDiabetes()
    ensures WidgetAnswer("Vata and diabetes") == VataInfo
  {
    assert Lower("Vata and diabetes")[0..4] == "vata";
    assert OccursAt(Lower("Vata and diabetes"), "vata", 0);
    WidgetVataFirst("Vata and diabetes");
  }

  lemma ApiFiresOnTherapist()
    ensures Fires(WidgetRules[4], "therapist")
  {
    assert "therapist"[4..7] == "api";
    assert OccursAt("therapist", "api", 4);
    KeywordFires(WidgetRules[4], "api", "therapist");
  }

  lemma NoEarlierTableKeyword(m: string, v: char, n: char, y: char, c: char)
    requires v in "vata" && n in "namaste" && y in "ayush" && c in "accuracy"
    requires v !in m && n !in m && y !in m && c !in m
    ensures forall j :: 0 <= j < 4 ==> !Fires(WidgetRules[j], m)
  {
    AbsentCharBlocks(m, "vata", v);
    AbsentCharBlocks(m, "namaste", n);
    AbsentCharBlocks(m, "ayush", y);
    AbsentCharBlocks(m, "accuracy", c);
  }

  /** The API entry is the first to fire on "therapist". */
  lemma TherapistFiresApiFirst()
    ensures FirstFiring(WidgetRules, "therapist", 4)
  {
    ApiFiresOnTherapist();
    NoEarlierTableKeyword("therapist", 'v', 'n', 'y', 'c');
  }

  /** A substring trap: "therapist" contains "api", so it gets the API answer. */
  lemma WidgetTherapistGetsApi()
    ensures WidgetAnswer("therapist") == ApiInfo
  {
    TherapistFiresApiFirst();
    LowerOfLowerCase("therapist");
    RespondFirstFiring(WidgetRules, HelpInfo, "therapist", 4);
  }

  /** The reply ignores case. */
  lemma WidgetIgnoresCase(m1: string, m2: string)
    requires Lower(m1) == Lower(m2)
    ensures WidgetAnswer(m1) == WidgetAnswer(m2)
  {
    RespondIgnoresCase(WidgetRules, HelpInfo, m1, m2);
  }

  // ---- The simplified chatbot ----

  /** The simplified chatbot's table: three keywords and the default, with the widget's wording. */
  const SimpleResponses: seq<Entry> := [
    Entry("vata", VataInfo), Entry("namaste", NamasteInfo), Entry("diabetes", DiabetesInfo), Entry("default", HelpInfo)
  ]

  const SimpleRules: seq<Rule<Answer>> := [
    Rule(["vata"], VataInfo), Rule(["namaste"], NamasteInfo), Rule(["diabetes"], DiabetesInfo), Rule([], HelpInfo)
  ]

  lemma SimpleRulesFromTable()
    ensures SimpleRules == Map(SimpleResponses, EntryRule)
    ensures Lookup(SimpleResponses, "default") == Some(HelpInfo)
  {
  }

  function SimpleAnswer(message: string): Answer
  {
    Respond(SimpleRules, HelpInfo, message)
  }

  /** The text the simplified chatbot replies with. */
  function SimpleReply(message: string): string
  {
    AnswerText(SimpleAnswer(message))
  }

  /** The simplified chatbot only ever gives four of the nine answers. */
  lemma SimpleAnswerIsCanned(message: string)
    ensures SimpleAnswer(message) in {VataInfo, NamasteInfo, DiabetesInfo, HelpInfo}
  {
  }

  /** The position of each answer in the simplified chatbot's branch list. */
  function SimpleSlot(a: Answer): int
  {
    match a
    case VataInfo => 0
    case NamasteInfo => 1
    case DiabetesInfo => 2
    case HelpInfo => 3
    case _ => -1
  }

  lemma SimpleRepliesDistinct()
    ensures DistinctReplies(SimpleRules, HelpInfo)
  {
    DistinctBySlot(SimpleRules, HelpInfo, SimpleSlot);
  }

  /** The simplified chatbot answers with branch `i` exactly when it fires first, and with the default when none fires. */
  lemma SimplePriority(message: string, i: nat)
    requires i < 3
    ensures SimpleAnswer(message) == SimpleRules[i].reply <==> FirstFiring(SimpleRules, Lower(message), i)
    ensures SimpleAnswer(message) == HelpInfo <==> NoneFires(SimpleRules, Lower(message))
  {
    SimpleRepliesDistinct();
    RespondIdentifiesBranch(SimpleRules, HelpInfo, message, i);
    RespondFallbackIff(SimpleRules, HelpInfo, message);
  }

  lemma NoSimpleKeywordIn(m: string, v: char, n: char, d: char)
    requires v in "vata" && n in "namaste" && d in "diabetes"
    requires v !in m && n !in m && d !in m
    ensures NoneFires(SimpleRules, m)
  {
    AbsentCharBlocks(m, "vata", v);
    AbsentCharBlocks(m, "namaste", n);
    AbsentCharBlocks(m, "diabetes", d);
  }

  /** A message whose lower-cased form lacks one letter of each keyword gets the default answer. */
  lemma SimpleDefaultWithout(m: string, v: char, n: char, d: char)
    requires v in "vata" && n in "namaste" && d in "diabetes"
    requires v !in Lower(m) && n !in Lower(m) && d !in Lower(m)
    ensures SimpleAnswer(m) == HelpInfo
  {
    NoSimpleKeywordIn(Lower(m), v, n, d);
    RespondFallback(SimpleRules, HelpInfo, m);
  }

  /** Unlike the widget, the simplified chatbot knows no hypertension or asthma answer. */
  lemma SimpleUnknownDiseaseGetsDefault(m: string)
    requires m == "hypertension" || m == "asthma"
    ensures SimpleAnswer(m) == HelpInfo
  {
    LowerOfLowerCase(m);
    if m == "hypertension" {
      SimpleDefaultWithout(m, 'v', 'm', 'd');
    } else {
      SimpleDefaultWithout(m, 'v', 'n', 'd');
    }
  }

  // ---- The Flask chatbot endpoint ----

  /** The endpoint's answers: one per branch of its if/elif chain, and the fallback. */
  datatype FlaskAnswer = DiabetesCodes | VataCodes | HypertensionCodes | AsthmaCodes | HelpText | FallbackText

  const FlaskDiabetes := "Diabetes Mellitus has NAMASTE code NAM-DM-001 and ICD-11 code EE90.0."
  const FlaskVata := "Vata Vyadhi has NAMASTE code NAM-VV-101 and ICD-11 code QD85.0."
  const FlaskHypertension := "Hypertension has NAMASTE code NAM-HTN-002 and ICD-11 code EE91.1."
  const FlaskAsthma := "Asthma has NAMASTE code 1234 and ICD-11 code ABCD."
  const FlaskHelp := "I can help you find NAMASTE and ICD-11 codes for diseases. Try asking about specific conditions like diabetes, hypertension, vata vyadhi, or asthma."
  const FlaskFallback := "I understand you're asking about medical codes. Please specify a disease name, and I'll provide the corresponding NAMASTE and ICD-11 codes."


  function FlaskText(a: FlaskAnswer): string
  {
    match a
    case DiabetesCodes => FlaskDiabetes
    case VataCodes => FlaskVata
    case HypertensionCodes => FlaskHypertension
    case AsthmaCodes => FlaskAsthma
    case HelpText => FlaskHelp
    case FallbackText => FlaskFallback
  }

  /** Different endpoint answers read differently. */
  lemma FlaskTextsDistinct(a: FlaskAnswer, b: FlaskAnswer)
    requires a != b
    ensures FlaskText(a) != FlaskText(b)
  {
  }

  /** The endpoint's if/elif chain. */
  const FlaskRules: seq<Rule<FlaskAnswer>> := [
    Rule(["diabetes"], DiabetesCodes), Rule(["vata"], VataCodes), Rule(["hypertension"], HypertensionCodes),
    Rule(["asthma"], AsthmaCodes), Rule(["help", "what"], HelpText)
  ]

  /** The endpoint's answer; a missing `message` parameter reads as the empty string. */
  function ChatbotAnswer(message: Option<string>): FlaskAnswer
  {
    var m := match message case Some(m) => m case None => "";
    Respond(FlaskRules, FallbackText, m)
  }

  /** The `response` field of the endpoint's JSON body. */
  function ChatbotResponse(message: Option<string>): string
  {
    FlaskText(ChatbotAnswer(message))
  }

  /** The position of each answer in the endpoint's chain; the fallback comes after it. */
  function FlaskSlot(a: FlaskAnswer): int
  {
    match a
    case DiabetesCodes => 0
    case VataCodes => 1
    case HypertensionCodes => 2
    case AsthmaCodes => 3
    case HelpText => 4
    case FallbackText => 5
  }

  lemma FlaskRepliesDistinct()
    ensures DistinctReplies(FlaskRules, FallbackText)
  {
    DistinctBySlot(FlaskRules, FallbackText, FlaskSlot);
  }

  /** The endpoint answers with branch `i` exactly when it fires first, and with the fallback when none fires. */
  lemma FlaskPriority(message: string, i: nat)
    requires i < |FlaskRules|
    ensures ChatbotAnswer(Some(message)) == FlaskRules[i].reply <==> FirstFiring(FlaskRules, Lower(message), i)
    ensures ChatbotAnswer(Some(message)) == FallbackText <==> NoneFires(FlaskRules, Lower(message))
  {
    FlaskRepliesDistinct();
    RespondIdentifiesBranch(FlaskRules, FallbackText, message, i);
    RespondFallbackIff(FlaskRules, FallbackText, message);
  }

  /** A disease keyword beats "what": "what is diabetes" gets the diabetes answer. */
  lemma FlaskDiseaseBeatsWhat()
    ensures ChatbotAnswer(Some("what is diabetes")) == DiabetesCodes
  {
    var m := "what is diabetes";
    assert Lower(m) == m;
    assert m[8..16] == "diabetes";
    assert OccursAt(m, "diabetes", 8);
    KeywordFires(FlaskRules[0], "diabetes", m);
    RespondFirstFiring(FlaskRules, FallbackText, m, 0);
  }

  /** A missing message gets the fallback. */
  lemma FlaskMissingMessageFallback()
    ensures ChatbotAnswer(None) == FallbackText
  {
    forall j | 0 <= j < |FlaskRules| ensures !Fires(FlaskRules[j], Lower("")) {
      forall k | k in FlaskRules[j].keywords ensures !Includes("", k) {
        NothingInEmpty(k);
      }
    }
    RespondFallback(FlaskRules, FallbackText, "");
  }
}

/**
 * The chat page's reply generator (generateBotResponse in
 * src/pages/ChatPage.jsx): a classifier that lower-cases the question and
 * tests trigger words in a fixed priority order, returning one of four
 * canned markdown replies together with a display type.
 */
module ResponseEngine {
  import opened JsString

  /** The `type` field of a reply: 'warning', 'info', 'success', or null. */
  datatype ReplyType = Warning | Info | Success | Untyped

  /** What generateBotResponse returns: the object `{ text, type }`. */
  datatype BotReply = BotReply(text: string, kind: ReplyType)

  /** The first line of each reply, up to its emoji. */
  const MalariaHeading: string := "## Malaria Symptoms"
  const VaccinationHeading: string := "## Vaccination Schedule"
  const PreventionHeading: string := "## Preventive Healthcare Tips"
  const DefaultHeading: string := "Thank you for your question!"

  /** The header row of the schedule table in the vaccination reply. */
  const ScheduleHeader: string := "| Age | Vaccine | Disease Prevention |"

  /** Reply to a question about malaria: symptom list and prevention tips. */
  const MalariaText: string := MalariaHeading + @" 🦟

**Common symptoms of malaria include:**

- **Fever** - High temperature that may come and go in cycles
- **Chills** - Intense cold feelings followed by sweating
- **Headache** - Severe headaches that persist
- **Muscle aches** - Body pain and weakness
- **Fatigue** - Extreme tiredness and lack of energy
- **Nausea and vomiting** - Digestive issues

**Prevention tips:**
- Use mosquito nets while sleeping
- Apply mosquito repellent
- Wear long-sleeved clothing during peak mosquito hours
- Eliminate standing water around your home

⚠️ **Important:** If you experience these symptoms, especially after traveling to malaria-prone areas, consult a healthcare professional immediately."

  /** Reply to a question about vaccines: the schedule table by age and notes on adult vaccines. */
  const VaccinationText: string := VaccinationHeading + VaccinationLead + ScheduleHeader + VaccinationTail
  const VaccinationLead: string := @" 💉

**Child Vaccination Timeline:**

"
  const VaccinationTail: string := @"
|-----|---------|-------------------|
| Birth | BCG, OPV-0, Hepatitis B-1 | Tuberculosis, Polio, Hepatitis B |
| 6 weeks | OPV-1, Pentavalent-1 | Polio, DPT, Hib, Hepatitis B |
| 10 weeks | OPV-2, Pentavalent-2 | Continued immunity |
| 14 weeks | OPV-3, Pentavalent-3, IPV-1 | Polio, DPT, Hib, Hepatitis B |
| 9 months | Measles-1, JE-1 | Measles, Japanese Encephalitis |

**Adult Vaccinations:**
- **COVID-19**: Follow government guidelines for boosters
- **Influenza**: Annual vaccination recommended
- **Tetanus**: Every 10 years

✅ **Government Integration:** This schedule is synced with national immunization programs."

  /** Reply to a question about prevention: hygiene, surroundings, nutrition and community tips. */
  const PreventionText: string := PreventionHeading + @" 🛡️

**Daily Health Practices:**

### Personal Hygiene
- Wash hands frequently with soap for 20 seconds
- Use alcohol-based hand sanitizer when soap unavailable
- Cover mouth and nose when coughing/sneezing
- Avoid touching face with unwashed hands

### Environmental Cleanliness
- Keep surroundings clean and dry
- Ensure proper ventilation in living spaces
- Dispose of garbage properly
- Maintain clean water storage

### Nutrition & Lifestyle
- Eat balanced diet with fruits and vegetables
- Drink clean, purified water
- Get adequate sleep (7-8 hours)
- Exercise regularly

### Community Health
- Report unusual health patterns to local health workers
- Participate in community health programs
- Stay informed about local health advisories

🏥 **Remember:** Prevention is always better than cure!"

  /** Reply to anything else: what the assistant can help with, and example questions. */
  const DefaultText: string := DefaultHeading + @" 🤖

I'm here to help with healthcare information, including:
- **Disease symptoms** and identification
- **Vaccination schedules** and reminders  
- **Preventive measures** for common illnesses
- **Health alerts** and outbreak information
- **Government health programs** in your area

Could you please be more specific about what health topic you'd like to know about? For example:
- ""What are dengue symptoms?""
- ""When is my child's next vaccination?""
- ""How to prevent seasonal flu?""

I'm connected to government health databases to provide you with the most current and reliable information."

  /** The canned text that goes with each reply type. */
  function CannedText(kind: ReplyType): string {
    match kind
    case Warning => MalariaText
    case Info => VaccinationText
    case Success => PreventionText
    case Untyped => DefaultText
  }

  /**
   * generateBotResponse: the first trigger found in the lower-cased question
   * decides the reply; the text always belongs to the reply's type and is never empty.
   */
  function GenerateBotResponse(userMessage: string): (r: BotReply)
    ensures r.text == CannedText(r.kind)
    ensures |r.text| > 0
  {
    var message := Lower(userMessage);
    if Includes(message, "malaria") then
      BotReply(MalariaText, Warning)
    else if Includes(message, "vaccination") || Includes(message, "vaccine") then
      BotReply(VaccinationText, Info)
    else if Includes(message, "prevention") || Includes(message, "prevent") then
      BotReply(PreventionText, Success)
    else
      BotReply(DefaultText, Untyped)
  }

  // ---------------------------------------------------------------------
  // The same classifier read as a priority table

  /** One row of the priority table: any of its trigger words selects its reply. */
  datatype Rule = Rule(triggers: seq<string>, reply: BotReply)

  /** The rows, highest priority first. */
  const Rules: seq<Rule> := [
    Rule(["malaria"], BotReply(MalariaText, Warning)),
    Rule(["vaccination", "vaccine"], BotReply(VaccinationText, Info)),
    Rule(["prevention", "prevent"], BotReply(PreventionText, Success))
  ]

  /** The reply when no row matches. */
  const Fallback: BotReply := BotReply(DefaultText, Untyped)

  predicate Fires(rule: Rule, message: string) {
    exists t :: t in rule.triggers && Includes(message, t)
  }

  /** Scan the table top-down and take the first row that fires. */
  function FirstMatch(rules: seq<Rule>, message: string): BotReply
    decreases |rules|
  {
    if rules == [] then Fallback
    else if Fires(rules[0], message) then rules[0].reply
    else FirstMatch(rules[1..], message)
  }

  /** First match wins: the reply is that of the earliest row that fires. */
  lemma {:induction false} FirstMatchWins(rules: seq<Rule>, message: string, k: nat)
    requires k < |rules| && Fires(rules[k], message)
    requires forall j :: 0 <= j < k ==> !Fires(rules[j], message)
    ensures FirstMatch(rules, message) == rules[k].reply
    decreases k
  {
    if k > 0 {
      assert !Fires(rules[0], message);
      FirstMatchWins(rules[1..], message, k - 1);
    }
  }

  /** When no row fires, the fallback is the reply. */
  lemma {:induction false} FirstMatchFallback(rules: seq<Rule>, message: string)
    requires forall j :: 0 <= j < |rules| ==> !Fires(rules[j], message)
    ensures FirstMatch(rules, message) == Fallback
    decreases |rules|
  {
    if rules != [] {
      assert !Fires(rules[0], message);
      FirstMatchFallback(rules[1..], message);
    }
  }

  /** generateBotResponse is exactly the top-down scan of the priority table over the lower-cased question. */
  lemma GenerateFollowsRuleTable(userMessage: string)
    ensures GenerateBotResponse(userMessage) == FirstMatch(Rules, Lower(userMessage))
  {
    var m := Lower(userMessage);
    assert Fires(Rules[0], m) <==> Includes(m, "malaria") by {
      assert Rules[0].triggers == ["malaria"];
    }
    assert Fires(Rules[1], m) <==> Includes(m, "vaccination") || Includes(m, "vaccine") by {
      assert Rules[1].triggers == ["vaccination", "vaccine"];
    }
    assert Fires(Rules[2], m) <==> Includes(m, "prevention") || Includes(m, "prevent") by {
      assert Rules[2].triggers == ["prevention", "prevent"];
    }
    if Fires(Rules[0], m) {
      FirstMatchWins(Rules, m, 0);
    } else if Fires(Rules[1], m) {
      FirstMatchWins(Rules, m, 1);
    } else if Fires(Rules[2], m) {
      FirstMatchWins(Rules, m, 2);
    } else {
      FirstMatchFallback(Rules, m);
    }
  }

  // ---------------------------------------------------------------------
  // Properties of the classifier

  /** The question contains `word` in some mix of upper and lower case. */
  ghost predicate Mentions(userMessage: string, word: string) {
    exists i :: OccursIgnoringCaseAt(userMessage, word, i)
  }

  /** Trimming the question keeps every mention of a word that starts and ends with a non-space. */
  lemma TrimKeepsMention(userMessage: string, word: string)
    requires word != [] && !IsWhitespace(word[0]) && !IsWhitespace(word[|word| - 1])
    requires Mentions(userMessage, word)
    ensures Mentions(Trim(userMessage), word)
    ensures |Trim(userMessage)| >= |word|
  {
    var i :| OccursIgnoringCaseAt(userMessage, word, i);
    TrimKeepsOccurrence(userMessage, word, i);
  }

  /** Every trigger word of the table is already lower case, so a question mentions it wherever it stands. */
  lemma TriggersAreLowerCase(j: int, k: int)
    requires 0 <= j < |Rules| && 0 <= k < |Rules[j].triggers|
    ensures Lower(Rules[j].triggers[k]) == Rules[j].triggers[k]
  {
    LowerFixesLowerCase(Rules[j].triggers[k]);
  }

  /** A lower-case word between any two texts is mentioned by their concatenation. */
  lemma MentionsInMiddle(a: string, word: string, c: string)
    requires Lower(word) == word
    ensures Mentions(a + word + c, word)
  {
    assert (a + word + c)[|a|..|a| + |word|] == word;
    assert OccursIgnoringCaseAt(a + word + c, word, |a|);
  }

  /** Lower-casing the question first changes no reply: matching ignores case. */
  lemma IgnoresCase(userMessage: string)
    ensures GenerateBotResponse(Lower(userMessage)) == GenerateBotResponse(userMessage)
  {
    LowerIdempotent(userMessage);
  }

  /** Any mention of malaria, in any case and whatever else is mentioned, gives the warning reply that opens with its heading. */
  lemma MalariaWins(userMessage: string)
    requires Mentions(userMessage, "malaria")
    ensures GenerateBotResponse(userMessage) == BotReply(MalariaText, Warning)
    ensures StartsWith(GenerateBotResponse(userMessage).text, MalariaHeading)
  {
    CaseInsensitiveIncludes(userMessage, "malaria");
  }

  /** A vaccine question that does not mention malaria gets the info reply holding the schedule table. */
  lemma VaccineSecond(userMessage: string)
    requires !Mentions(userMessage, "malaria")
    requires Mentions(userMessage, "vaccination") || Mentions(userMessage, "vaccine")
    ensures GenerateBotResponse(userMessage).kind == Info
    ensures Includes(GenerateBotResponse(userMessage).text, ScheduleHeader)
  {
    CaseInsensitiveIncludes(userMessage, "malaria");
    CaseInsensitiveIncludes(userMessage, "vaccination");
    CaseInsensitiveIncludes(userMessage, "vaccine");
    IncludesInMiddle(VaccinationHeading + VaccinationLead, ScheduleHeader, VaccinationTail);
  }

  /** Testing for "prevention" as well as "prevent" adds nothing: the longer word contains the shorter. */
  lemma PreventionTriggerRedundant(message: string)
    ensures Includes(message, "prevention") || Includes(message, "prevent") <==> Includes(message, "prevent")
  {
    if Includes(message, "prevention") {
      assert "prevention" == "prevent" + "ion";
      IncludesLongerImpliesShorter(message, "prevent", "ion");
    }
  }

  /** The success reply comes exactly for questions mentioning "prevent" but neither malaria nor vaccines. */
  lemma SuccessExactly(userMessage: string)
    ensures GenerateBotResponse(userMessage).kind == Success <==>
            && !Mentions(userMessage, "malaria")
            && !Mentions(userMessage, "vaccination") && !Mentions(userMessage, "vaccine")
            && Mentions(userMessage, "prevent")
  {
    CaseInsensitiveIncludes(userMessage, "malaria");
    CaseInsensitiveIncludes(userMessage, "vaccination");
    CaseInsensitiveIncludes(userMessage, "vaccine");
    CaseInsensitiveIncludes(userMessage, "prevent");
    PreventionTriggerRedundant(Lower(userMessage));
  }

  /** The untyped fallback comes exactly for questions that mention no trigger word, and then its text is the fixed default. */
  lemma FallbackExactly(userMessage: string)
    ensures GenerateBotResponse(userMessage).kind == Untyped <==>
            && !Mentions(userMessage, "malaria")
            && !Mentions(userMessage, "vaccination") && !Mentions(userMessage, "vaccine")
            && !Mentions(userMessage, "prevent")
    ensures GenerateBotResponse(userMessage).kind == Untyped ==> GenerateBotResponse(userMessage) == Fallback
  {
    CaseInsensitiveIncludes(userMessage, "malaria");
    CaseInsensitiveIncludes(userMessage, "vaccination");
    CaseInsensitiveIncludes(userMessage, "vaccine");
    CaseInsensitiveIncludes(userMessage, "prevent");
    PreventionTriggerRedundant(Lower(userMessage));
  }

  /** The empty question gets the fallback. */
  lemma EmptyQuestionFallsBack()
    ensures GenerateBotResponse("") == Fallback
  {
  }

  /** A question naming all three topics gets the malaria reply. */
  lemma PriorityExample(question: string)
    requires question == "malaria vaccination prevention"
    ensures GenerateBotResponse(question).kind == Warning
  {
    assert question[0..7] == "malaria";
    TriggersAreLowerCase(0, 0);
    assert OccursIgnoringCaseAt(question, "malaria", 0);
    MalariaWins(question);
  }

  /** The four canned texts are pairwise different, so a reply's text tells its type. */
  lemma CannedTextsDistinct(a: ReplyType, b: ReplyType)
    requires a != b
    ensures CannedText(a) != CannedText(b)
  {
    assert MalariaText[3] == 'M' && VaccinationText[3] == 'V' && PreventionText[3] == 'P' && DefaultText[3] == 'n';
  }
}

/** Mood extraction (`mood_extractor.py`, in both the current and the legacy
    package): a priority-ordered rule table of trigger substrings over the
    lower-cased prompt, chosen when no language-model service is configured
    or when the service fails; the Azure reply has its Markdown code fences
    removed before it is parsed. */
module MoodExtractor {
  import opened Text
  import opened Catalog

  /** One rule: if any trigger occurs in the prompt, the mood and the tone. */
  datatype Rule = Rule(triggers: seq<string>, mood: string, tone: string)

  /** The rules, in the order they are tried. */
  const Rules: seq<Rule> := [
    Rule(["sad", "bad", "lonely"], "happy", "light-hearted"),
    Rule(["tired", "lazy", "bored", "lethargic"], "relaxed", "light-hearted"),
    Rule(["excited", "energetic", "thrill"], "energetic", "intense"),
    Rule(["romantic", "love"], "romantic", "light-hearted")
  ]

  /** `any(word in prompt for word in triggers)` */
  predicate Fires(r: Rule, p: string) {
    exists i :: 0 <= i < |r.triggers| && Contains(p, r.triggers[i])
  }

  /** The first rule from `k` on that fires. */
  function FirstRule(p: string, k: nat): (r: Option<nat>)
    ensures r.Some? ==> k <= r.value < |Rules| && Fires(Rules[r.value], p)
    ensures r.Some? ==> forall j :: k <= j < r.value ==> !Fires(Rules[j], p)
    ensures r.None? ==> forall j :: k <= j < |Rules| ==> !Fires(Rules[j], p)
    decreases |Rules| - k
  {
    if k >= |Rules| then None
    else if Fires(Rules[k], p) then Some(k)
    else FirstRule(p, k + 1)
  }

  function Outcome(r: Rule): MoodInfo {
    MoodInfo(Str(r.mood), Str(r.tone))
  }

  /** `extract_mood_rule_based` */
  function RuleBased(prompt: string): MoodInfo {
    match FirstRule(Lower(prompt), 0)
    case Some(k) => Outcome(Rules[k])
    case None => Neutral
  }

  /** The first rule wins: the prompt gets rule `k`'s mood and tone exactly
      when one of rule `k`'s triggers occurs in the lower-cased prompt and
      none of an earlier rule's does; it gets neutral/neutral exactly when no
      trigger occurs. */
  lemma FirstRuleWins(prompt: string, k: nat)
    requires k < |Rules|
    ensures RuleBased(prompt) == Outcome(Rules[k]) <==>
      Fires(Rules[k], Lower(prompt)) && forall j :: 0 <= j < k ==> !Fires(Rules[j], Lower(prompt))
    ensures RuleBased(prompt) == Neutral <==> forall j :: 0 <= j < |Rules| ==> !Fires(Rules[j], Lower(prompt))
  {
    var p := Lower(prompt);
    match FirstRule(p, 0)
    case Some(b) =>
      if b != k {
        assert Outcome(Rules[b]) != Outcome(Rules[k]);
      }
      assert Outcome(Rules[b]) != Neutral;
    case None =>
      assert Outcome(Rules[k]) != Neutral;
  }

  /** Both keys are always present, with values from a fixed set. */
  lemma RuleBasedRange(prompt: string)
    ensures RuleBased(prompt).mood.Str? && RuleBased(prompt).tone.Str?
    ensures RuleBased(prompt).mood.value in {"happy", "relaxed", "energetic", "romantic", "neutral"}
    ensures RuleBased(prompt).tone.value in {"light-hearted", "intense", "neutral"}
  {
  }

  /** Matching ignores letter case. */
  lemma RuleBasedIgnoresCase(prompt: string)
    ensures RuleBased(Lower(prompt)) == RuleBased(prompt)
  {
    LowerIdempotent(prompt);
  }

  /** A trigger may occur inside a longer word: "badminton" counts as "bad". */
  lemma BadmintonIsBad()
    ensures RuleBased("badminton tonight") == MoodInfo(Str("happy"), Str("light-hearted"))
  {
    var p := Lower("badminton tonight");
    assert p == "badminton tonight";
    assert OccursAt(p, "bad", 0);
    ContainsIffOccurs(p, "bad");
    assert Contains(p, Rules[0].triggers[1]);
    assert Fires(Rules[0], p);
  }

  /** A needle with a character the haystack lacks does not occur in it. */
  lemma Lacks(p: string, t: string, c: char)
    requires c in t && c !in p
    ensures !Contains(p, t)
  {
    if Contains(p, t) {
      ContainsChars(p, t, c);
    }
  }

  /** "exciting" is not "excited": this prompt matches no rule. */
  lemma ExcitingIsNeutral()
    ensures RuleBased("I want exciting action movies") == Neutral
  {
    NeutralWithout("I want exciting action movies");
  }

  /** None of the letters d, l, r, h and b occurs, in either case. */
  predicate AvoidsTriggerLetters(q: string) {
    forall i :: 0 <= i < |q| ==>
      q[i] != 'd' && q[i] != 'D' && q[i] != 'l' && q[i] != 'L' && q[i] != 'r' && q[i] != 'R' &&
      q[i] != 'h' && q[i] != 'H' && q[i] != 'b' && q[i] != 'B'
  }

  /** Every trigger holds one of d, l, r, h and b, so a prompt without them
      is neutral. */
  lemma NeutralWithout(q: string)
    requires AvoidsTriggerLetters(q)
    ensures RuleBased(q) == Neutral
  {
    LowerLacks(q, 'd');
    LowerLacks(q, 'l');
    LowerLacks(q, 'r');
    LowerLacks(q, 'h');
    LowerLacks(q, 'b');
    NoRuleFires(Lower(q));
    FirstRuleWins(q, 0);
  }

  /** A letter that occurs in neither case is absent after lower-casing. */
  lemma LowerLacks(s: string, c: char)
    requires 'a' <= c <= 'z' && c !in s && ((c as int - 32) as char) !in s
    ensures c !in Lower(s)
  {
    forall i | 0 <= i < |s| ensures Lower(s)[i] != c {
      if Lower(s)[i] == c {
        LowerCharFrom(s[i], c);
      }
    }
  }

  /** No trigger occurs in a text without the letters d, l, r, h and b. */
  lemma NoRuleFires(p: string)
    requires 'd' !in p && 'l' !in p && 'r' !in p && 'h' !in p && 'b' !in p
    ensures forall j :: 0 <= j < |Rules| ==> !Fires(Rules[j], p)
  {
    FirstRulesSilent(p);
    LastRulesSilent(p);
  }

  lemma FirstRulesSilent(p: string)
    requires 'd' !in p && 'l' !in p && 'b' !in p
    ensures !Fires(Rules[0], p) && !Fires(Rules[1], p)
  {
    Lacks(p, "sad", 'd');
    Lacks(p, "bad", 'd');
    Lacks(p, "lonely", 'l');
    Lacks(p, "tired", 'd');
    Lacks(p, "lazy", 'l');
    Lacks(p, "bored", 'b');
    Lacks(p, "lethargic", 'l');
  }

  lemma LastRulesSilent(p: string)
    requires 'd' !in p && 'l' !in p && 'r' !in p && 'h' !in p
    ensures !Fires(Rules[2], p) && !Fires(Rules[3], p)
  {
    Lacks(p, "excited", 'd');
    Lacks(p, "energetic", 'r');
    Lacks(p, "thrill", 'h');
    Lacks(p, "romantic", 'r');
    Lacks(p, "love", 'l');
  }

  // ---------------------------------------------------------------------
  // Mode selection and dispatch
  // ---------------------------------------------------------------------

  datatype Mode = AzureOpenAIMode | OpenAIMode | RuleBasedMode

  /** Python truthiness of an environment variable. */
  predicate Set(v: Option<string>) {
    v.Some? && v.value != ""
  }

  /** `USE_MODE`: Azure when both its endpoint and its key are set, else
      OpenAI when its key is set, else the rules. */
  function ModeOf(azureEndpoint: Option<string>, azureKey: Option<string>, openAIKey: Option<string>): Mode {
    if Set(azureEndpoint) && Set(azureKey) then AzureOpenAIMode
    else if Set(openAIKey) then OpenAIMode
    else RuleBasedMode
  }

  /** `extract_mood`. The language-model call is a parameter: `content` is
      the message content it returned, `None` when the call raised, and
      `parse` is `json.loads`, `None` when the text is not JSON. Any failure
      falls back to the rules. */
  function ExtractMood(mode: Mode, prompt: string, content: Option<string>, parse: string -> Option<MoodInfo>): MoodInfo {
    match mode
    case AzureOpenAIMode =>
      if content.Some? && parse(StripFences(content.value)).Some? then parse(StripFences(content.value)).value
      else RuleBased(prompt)
    case OpenAIMode =>
      if content.Some? && parse(content.value).Some? then parse(content.value).value
      else RuleBased(prompt)
    case RuleBasedMode => RuleBased(prompt)
  }

  /** With no key configured the rules answer, whatever a service would
      say; a failed or unparsable reply also falls back to the rules; Azure
      takes precedence over OpenAI. */
  lemma DispatchProperties(prompt: string, content: Option<string>, parse: string -> Option<MoodInfo>,
                           e: Option<string>, k: Option<string>, o: Option<string>)
    ensures !Set(o) && !(Set(e) && Set(k)) ==> ExtractMood(ModeOf(e, k, o), prompt, content, parse) == RuleBased(prompt)
    ensures ModeOf(None, None, None) == RuleBasedMode
    ensures Set(e) && Set(k) ==> ModeOf(e, k, o) == AzureOpenAIMode
    ensures content.None? ==> ExtractMood(ModeOf(e, k, o), prompt, content, parse) == RuleBased(prompt)
  {
  }

  /** The legacy package's switch. */
  const UseGpt: bool := false

  /** The legacy `extract_mood`: the GPT call (parsed without fence
      stripping, like the OpenAI mode) only when `USE_GPT` is set. The legacy
      module builds its client outside the `try`, so a failure to build it
      would raise rather than fall back to the rules as `OpenAIMode` does;
      with `USE_GPT = False` that path is never taken. */
  function LegacyMode(): Mode {
    if UseGpt then OpenAIMode else RuleBasedMode
  }

  /** With `USE_GPT = False` the legacy extractor is the rule table. */
  lemma LegacyIsRuleBased(prompt: string, content: Option<string>, parse: string -> Option<MoodInfo>)
    ensures ExtractMood(LegacyMode(), prompt, content, parse) == RuleBased(prompt)
  {
  }

  // ---------------------------------------------------------------------
  // Code-fence stripping of the Azure reply
  // ---------------------------------------------------------------------

  const Fence: string := "```"
  const JsonFence: string := "```json"

  /** The text after the first `open` fence, up to the next plain fence,
      trimmed: `content.split(open)[1].split("```")[0].strip()`. */
  function Between(content: string, open: string): string
    requires |open| > 0 && Contains(content, open)
  {
    Strip(SplitOn(SplitOn(content, open)[1], Fence)[0])
  }

  /** Fence stripping, then the final `content.strip()`. */
  function StripFences(content: string): string {
    if Contains(content, JsonFence) then Strip(Between(content, JsonFence))
    else if Contains(content, Fence) then Strip(Between(content, Fence))
    else Strip(content)
  }

  /** Trimming twice is trimming once. */
  lemma StripIdempotent(s: string)
    ensures Strip(Strip(s)) == Strip(s)
  {
    StripTrims(s);
    var t := Strip(s);
    assert StripLeft(t) == t;
    assert StripRight(t) == t;
  }

  /** A fence starting with a backtick is first found right after a prefix
      without backticks. */
  lemma FenceAfter(pre: string, sep: string, rest: string)
    requires |sep| > 0 && sep[0] == '`' && '`' !in pre
    ensures FirstIndex(pre + sep + rest, sep) == Some(|pre|)
    ensures SplitOn(pre + sep + rest, sep) == [pre] + SplitOn(rest, sep)
  {
    var s := pre + sep + rest;
    assert StartsWith(s[|pre|..], sep) by {
      assert s[|pre|..][..|sep|] == sep;
    }
    assert s[..|pre|] == pre && s[|pre| + |sep|..] == rest;
  }

  /** Text without backticks holds no fence. */
  lemma NoTickNoFence(s: string, t: string)
    requires '`' !in s && |t| > 0 && t[0] == '`'
    ensures !Contains(s, t)
  {
    if Contains(s, t) {
      ContainsChars(s, t, '`');
    }
  }

  /** Three backticks. */
  predicate Ticks(f: string) {
    |f| == 3 && f[0] == '`' && f[1] == '`' && f[2] == '`'
  }

  /** In `body + f + post` without other backticks, the backticks sit right
      after the body. */
  lemma TickAt(body: string, f: string, post: string, k: nat)
    requires '`' !in body && '`' !in post && Ticks(f)
    requires k < |body + f + post| && (body + f + post)[k] == '`'
    ensures |body| <= k < |body| + 3
  {
    var x := body + f + post;
    assert forall j :: 0 <= j < |body| ==> x[j] == body[j];
    assert forall j :: |body| + 3 <= j < |x| ==> x[j] == post[j - |body| - 3];
  }

  /** The piece of `body + f + post` before the next opening fence is `body`
      or the whole text; either way its first plain-fence piece is `body`. */
  lemma BodyBeforeOpen(body: string, f: string, post: string, open: string)
    requires '`' !in body && '`' !in post && Ticks(f)
    requires |open| > 3 && open[0] == '`' && open[2] == '`'
    ensures SplitOn(SplitOn(body + f + post, open)[0], f)[0] == body
  {
    var x := body + f + post;
    FenceAfter(body, f, post);
    NoTickNoFence(body, f);
    match FirstIndex(x, open)
    case None =>
    case Some(i) =>
      assert x[i] == '`' && x[i + 2] == '`' by {
        assert x[i..i + |open|] == open;
        assert x[i..i + |open|][0] == x[i] && x[i..i + |open|][2] == x[i + 2];
      }
      TickAt(body, f, post, i);
      TickAt(body, f, post, i + 2);
      assert x[..i] == body;
      SplitOnAbsent(body, f);
  }

  /** A reply `pre + "```json" + body + "```" + post` with no other backtick
      yields the trimmed body. */
  lemma JsonFenceExtracted(pre: string, body: string, post: string)
    requires '`' !in pre && '`' !in body && '`' !in post
    ensures StripFences(pre + JsonFence + body + Fence + post) == Strip(body)
  {
    var rest := body + Fence + post;
    assert pre + JsonFence + body + Fence + post == pre + JsonFence + rest;
    FenceAfter(pre, JsonFence, rest);
    assert Contains(pre + JsonFence + rest, JsonFence);
    assert Ticks(Fence);
    assert JsonFence[0] == '`' && JsonFence[2] == '`';
    BodyBeforeOpen(body, Fence, post, JsonFence);
    StripIdempotent(body);
  }

  /** A reply `pre + "```" + body + "```" + post` with no other backtick
      and no "```json" yields the trimmed body. */
  lemma PlainFenceExtracted(pre: string, body: string, post: string)
    requires '`' !in pre && '`' !in body && '`' !in post
    requires !Contains(pre + Fence + body + Fence + post, JsonFence)
    ensures StripFences(pre + Fence + body + Fence + post) == Strip(body)
  {
    var rest := body + Fence + post;
    assert pre + Fence + body + Fence + post == pre + Fence + rest;
    FenceAfter(pre, Fence, rest);
    FenceAfter(body, Fence, post);
    assert Contains(pre + Fence + rest, Fence);
    NoTickNoFence(body, Fence);
    SplitOnAbsent(body, Fence);
    StripIdempotent(body);
  }

  /** A reply without fences is only trimmed, and the result never starts or
      ends with whitespace. */
  lemma UnfencedTrimmed(content: string)
    ensures !Contains(content, Fence) ==> StripFences(content) == Strip(content)
    ensures StripFences(content) == [] || !IsSpace(StripFences(content)[0])
  {
    if !Contains(content, Fence) {
      if Contains(content, JsonFence) {
        ContainsChars(content, JsonFence, '`');
        var i := FirstIndex(content, JsonFence).value;
        assert content[i..i + 3] == content[i..i + 7][..3];
        assert JsonFence[..3] == Fence;
        assert OccursAt(content, Fence, i);
        ContainsIffOccurs(content, Fence);
      }
    }
    var s := if Contains(content, JsonFence) then Between(content, JsonFence)
      else if Contains(content, Fence) then Between(content, Fence) else content;
    StripTrims(s);
  }
}

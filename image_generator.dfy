/**
 * The generator page's side of the ledger: the price of the selected model,
 * the gate in front of every generation (logged in, not locked, enough
 * credits), the charge taken only after a generation succeeds, the state of
 * the Generate button, and the one-at-a-time download with its file name.
 *
 * The generation service is not modelled: its outcome is a parameter.
 */
module ImageGenerator {
  import opened Wrappers
  import opened Ledger
  import Strings
  import Deduction
  import UserPlanContext

  const IMAGE_MODEL_IDS: seq<string> := [
    "stability-ai/sdxl:39ed52f2a78e934b3ba6e2a89f5b1c712de791de18060315f5cb400e263d80c0",
    "lucataco/realistic-vision-v60-b1:5a8cb5b672f7a07f27715d262c5b35582f3484f997635649988450035043d191",
    "lykon/dreamshaper-8:b43d7b3223193e449915998b31372e020d57e510255b1f07e4d830b1348e5a7b",
    "prompthero/openjourney:9936c2001faa2194a261c01381f90e65261879985476014a0a37a3345923d243",
    "proximasan/deliberate-v2:ee5c6f642468f615383a54a73744a569562767093258c067a6d89953051a6291"
  ]

  const VIDEO_MODEL_IDS: seq<string> := [
    "stability-ai/stable-video-diffusion:3f0457e4619daac51203dedb472816fd4af51f3149fa7a9e0b5ffcf1b8172638",
    "anotherjesse/zeroscope-v2-xl:71996d331e8ede8ef7bd76eba9fae076d31792e4ddf4ad057779b443d6aea62f",
    "lucataco/animate-diff-sdxl:b6182a4d34f0a9e22472b86370258163f4a05f15d3159042b0051e59273c524b",
    "deforum/deforum_api:0621e21b0e004481b213c6baf538a502c30b135b1c5c644c9b914a8f94950b73",
    "cjwbw/modelscope-t2v:8153b527fa6a37fb33418c322b7d43b2f5c229712128711818274a7b458b9f71"
  ]

  const DEFAULT_PROMPT: string := "A majestic lion wearing a crown, sitting on a throne in a cosmic library."

  /** A model is a video model when its id is one of the video ids. */
  predicate IsVideoModel(model: string) {
    model in VIDEO_MODEL_IDS
  }

  /** The price of one generation with `model`. */
  function CreditCostFor(model: string): nat {
    GetCreditCost(if IsVideoModel(model) then Video else Image)
  }

  /** Video models cost 50 credits, every other id (listed or not) costs 20. */
  lemma ModelPricing(model: string)
    ensures CreditCostFor(model) == 50 <==> model in VIDEO_MODEL_IDS
    ensures CreditCostFor(model) == 20 <==> model !in VIDEO_MODEL_IDS
    ensures CreditCostFor(IMAGE_MODEL_IDS[0]) == 20
  {
    // the ids differ in length: 82 characters against 100, 93, 91, 84 and 85
    assert |IMAGE_MODEL_IDS[0]| == 82;
    assert |VIDEO_MODEL_IDS[0]| == 100 && |VIDEO_MODEL_IDS[1]| == 93 && |VIDEO_MODEL_IDS[2]| == 91;
    assert |VIDEO_MODEL_IDS[3]| == 84 && |VIDEO_MODEL_IDS[4]| == 85;
  }

  predicate HasSufficientCredits(totalCredits: nat, cost: nat) {
    totalCredits >= cost
  }

  /** The Generate button is disabled while loading, when the balance is short, or when locked. */
  predicate IsGenerateDisabled(isLoading: bool, sufficient: bool, locked: bool) {
    isLoading || !sufficient || locked
  }

  datatype FormValues = FormValues(prompt: string, model: string)

  /** Both fields must be non-empty. */
  predicate ValidForm(values: FormValues) {
    |values.prompt| >= 1 && |values.model| >= 1
  }

  datatype Media = Media(kind: MediaType, url: string)

  /** The generation service's answer: media, or a thrown error. */
  datatype Generation = Generated(media: Media) | Failed(message: string)

  /** The outcome of the checks made before generating. */
  datatype Gate = InvalidForm | LoginRequired | LimitReached | InsufficientCredits | Proceed(cost: nat)

  function SubmitGate(values: FormValues, user: Option<User>, now: int): Gate {
    if !ValidForm(values) then InvalidForm
    else if user.None? then LoginRequired
    else if LoginLocked(user, now) then LimitReached
    else if !HasSufficientCredits(Balance(user, now), CreditCostFor(values.model)) then InsufficientCredits
    else Proceed(CreditCostFor(values.model))
  }

  /**
   * A generation is only started for a logged-in, unlocked user who can pay
   * its price, and charging that price at the same instant takes exactly it
   * off the balance.
   */
  lemma GateGuaranteesExactCharge(values: FormValues, user: Option<User>, now: int)
    requires SubmitGate(values, user, now).Proceed?
    ensures var cost := SubmitGate(values, user, now).cost;
      && cost == CreditCostFor(values.model)
      && user.Some? && !LoginLocked(user, now)
      && Balance(Deduction.DeductFromUser(user, cost, now), now) == Balance(user, now) - cost
  {
    Deduction.DeductIsExact(user.value.planHistory, CreditCostFor(values.model), now);
  }

  /** For a valid form and a logged-in user, the gate lets through exactly what an idle enabled button offers. */
  lemma GateMatchesButton(values: FormValues, user: Option<User>, now: int)
    requires ValidForm(values) && user.Some?
    ensures SubmitGate(values, user, now).Proceed? <==>
      !IsGenerateDisabled(false, HasSufficientCredits(Balance(user, now), CreditCostFor(values.model)), LoginLocked(user, now))
  {
  }

  /** A new account's 20 trial credits buy one image and never a video. */
  lemma TrialAffordsOneImage(email: string, now: int, freshId: string, prompt: string, t: int)
    requires |prompt| >= 1
    ensures var u := Some(NewAccount(email, now, freshId));
      var image := FormValues(prompt, IMAGE_MODEL_IDS[0]);
      var video := FormValues(prompt, VIDEO_MODEL_IDS[0]);
      && SubmitGate(image, u, t) == Proceed(20)
      && SubmitGate(video, u, t) == InsufficientCredits
      && SubmitGate(image, Deduction.DeductFromUser(u, 20, t), t) == InsufficientCredits
  {
    var u := NewAccount(email, now, freshId);
    NewAccountSeed(email, now, freshId, t);
    ModelPricing(IMAGE_MODEL_IDS[0]);
    ModelPricing(VIDEO_MODEL_IDS[0]);
    Deduction.TrialScenario(email, now, freshId, t, t);
    assert |RecentLogins(u.loginHistory, t)| <= 1;
    var after := Deduction.DeductFromUser(Some(u), 20, t);
    assert after.value.loginHistory == u.loginHistory;
  }

  // ---------------------------------------------------------------------------
  // Download file name

  const FILENAME_PREFIX: string := "imagen-go-brainai-"

  function Extension(kind: MediaType): string {
    if kind == Image then "png" else "mp4"
  }

  /** The prompt's part of the name: whitespace runs hyphenated, lower-cased, at most 20 characters. */
  function PromptSlug(prompt: string): (r: string)
    ensures |r| <= 20 && Strings.NoWhitespace(r) && Strings.IsLowerCase(r)
    ensures Strings.NoWhitespace(prompt) && Strings.IsLowerCase(prompt) && |prompt| <= 20 ==> r == prompt
    ensures var hyphenated := Strings.HyphenateWhitespace(prompt);
      && |r| == (if |hyphenated| <= 20 then |hyphenated| else 20)
      && forall i :: 0 <= i < |r| ==> r[i] == Strings.ToLowerChar(hyphenated[i])
  {
    var hyphenated := Strings.HyphenateWhitespace(prompt);
    var lowered := Strings.ToLower(hyphenated);
    Strings.HyphenateFixesClean(prompt);
    Strings.ToLowerIsLowerCase(hyphenated);
    Strings.Prefix(lowered, 20)
  }

  lemma FixedPartsAreClean(kind: MediaType)
    ensures Strings.NoWhitespace(FILENAME_PREFIX) && Strings.IsLowerCase(FILENAME_PREFIX)
    ensures Strings.NoWhitespace("." + Extension(kind)) && Strings.IsLowerCase("." + Extension(kind))
  {
  }

  /** The download's file name: fixed prefix, prompt slug, extension for the media kind. */
  function DownloadFilename(prompt: string, kind: MediaType): (r: string)
    ensures Strings.NoWhitespace(r) && Strings.IsLowerCase(r)
    ensures |FILENAME_PREFIX| + 4 <= |r| <= |FILENAME_PREFIX| + 20 + 4
    ensures r[..|FILENAME_PREFIX|] == FILENAME_PREFIX
    ensures Strings.EndsWith(r, "." + Extension(kind))
    ensures r[|FILENAME_PREFIX|..|r| - 4] == PromptSlug(prompt)
  {
    var slug := PromptSlug(prompt);
    var ext := "." + Extension(kind);
    FixedPartsAreClean(kind);
    Strings.CleanConcat(FILENAME_PREFIX, slug);
    Strings.CleanConcat(FILENAME_PREFIX + slug, ext);
    var r := FILENAME_PREFIX + slug + ext;
    assert r[|r| - |ext|..] == ext;
    assert r[..|FILENAME_PREFIX|] == FILENAME_PREFIX;
    assert |ext| == 4;
    assert r[|FILENAME_PREFIX|..|r| - 4] == slug;
    r
  }

  /**
   * Two words separated by any run of blanks, short enough to fit, give the
   * two words lower-cased and joined by one hyphen.
   */
  lemma SlugJoinsWords(a: string, w: string, b: string)
    requires Strings.NoWhitespace(a) && Strings.NoWhitespace(b)
    requires w != [] && Strings.AllWhitespace(w)
    requires |a| + 1 + |b| <= 20
    ensures PromptSlug(a + w + b) == Strings.ToLower(a) + "-" + Strings.ToLower(b)
  {
    Strings.HyphenateRun(a, w, b);
    Strings.HyphenateFixesClean(b);
    var hyphenated := a + "-" + b;
    assert Strings.HyphenateWhitespace(a + w + b) == hyphenated;
    var slug := PromptSlug(a + w + b);
    var expected := Strings.ToLower(a) + "-" + Strings.ToLower(b);
    assert |slug| == |expected|;
    forall i | 0 <= i < |slug| ensures slug[i] == expected[i] {
      assert slug[i] == Strings.ToLowerChar(hyphenated[i]);
      if i < |a| {
        assert hyphenated[i] == a[i] && expected[i] == Strings.ToLower(a)[i];
      } else if i == |a| {
        assert hyphenated[i] == '-' && expected[i] == '-';
      } else {
        assert hyphenated[i] == b[i - |a| - 1] && expected[i] == Strings.ToLower(b)[i - |a| - 1];
      }
    }
  }

  /** The slug is a pure function of the prompt text: the media kind picks only the extension. */
  lemma FilenamesDifferOnlyInExtension(prompt: string)
    ensures var png := DownloadFilename(prompt, Image);
      var mp4 := DownloadFilename(prompt, Video);
      |png| == |mp4| && png[..|png| - 3] == mp4[..|mp4| - 3] && png != mp4
  {
    var png := DownloadFilename(prompt, Image);
    var mp4 := DownloadFilename(prompt, Video);
    assert png[|png| - 3] == 'p' && mp4[|mp4| - 3] == 'm';
  }

  /** A download about to start: the media URL and the file name to save it under. */
  datatype DownloadRequest = DownloadRequest(url: string, filename: string)

  // ---------------------------------------------------------------------------
  // The page

  class Generator {
    const ledger: UserPlanContext.UserPlanProvider
    var prompt: string
    var model: string
    var generatedMedia: Option<Media>
    var isLoading: bool
    var downloading: Option<string>

    constructor (ledger: UserPlanContext.UserPlanProvider)
      ensures this.ledger == ledger
      ensures prompt == DEFAULT_PROMPT && model == IMAGE_MODEL_IDS[0]
      ensures generatedMedia.None? && !isLoading && downloading.None?
    {
      this.ledger := ledger;
      prompt := DEFAULT_PROMPT;
      model := IMAGE_MODEL_IDS[0];
      generatedMedia := None;
      isLoading := false;
      downloading := None;
    }

    /** The form's fields as the user edits them. */
    method EditForm(prompt: string, model: string)
      modifies this
      ensures this.prompt == prompt && this.model == model
      ensures generatedMedia == old(generatedMedia) && isLoading == old(isLoading) && downloading == old(downloading)
    {
      this.prompt := prompt;
      this.model := model;
    }

    /** `isGenerateDisabled` as rendered at `now`. */
    predicate GenerateDisabled(now: int)
      reads this, ledger
    {
      IsGenerateDisabled(isLoading, HasSufficientCredits(Balance(ledger.user, now), CreditCostFor(model)),
                         LoginLocked(ledger.user, now))
    }

    /**
     * Submitting the form at `now`; when the gate lets it through, the
     * generation service answers `generation` and the charge is taken at
     * `finishedAt`.
     */
    method OnSubmit(now: int, generation: Generation, finishedAt: int) returns (gate: Gate)
      requires ledger.Valid()
      modifies this, ledger
      ensures ledger.Valid()
      ensures gate == SubmitGate(FormValues(prompt, model), old(ledger.user), now)
      ensures prompt == old(prompt) && model == old(model) && downloading == old(downloading)
      ensures !gate.Proceed? ==>
        && ledger.user == old(ledger.user) && ledger.accounts == old(ledger.accounts)
        && generatedMedia == old(generatedMedia) && isLoading == old(isLoading)
        && ledger.isPlanModalOpen == (old(ledger.isPlanModalOpen) || gate == LoginRequired || gate == LimitReached)
      ensures gate.Proceed? ==>
        && !isLoading
        && generatedMedia == (if generation.Generated? then Some(generation.media) else None)
        && ledger.user == (if generation.Generated? then Deduction.DeductFromUser(old(ledger.user), gate.cost, finishedAt)
                           else old(ledger.user))
        && ledger.accounts ==
             (if generation.Generated? && gate.cost <= TotalCredits(old(ledger.user).value.planHistory, finishedAt)
              then old(ledger.accounts)[ledger.user.value.email := ledger.user.value] else old(ledger.accounts))
        && ledger.isPlanModalOpen == old(ledger.isPlanModalOpen)
      ensures ledger.sessionEmail == old(ledger.sessionEmail) && ledger.storedLastUsedEmail == old(ledger.storedLastUsedEmail)
      ensures ledger.lastUsedEmail == old(ledger.lastUsedEmail)
      ensures gate.Proceed? && generation.Generated? && finishedAt == now ==>
        Balance(ledger.user, now) == Balance(old(ledger.user), now) - gate.cost
    {
      var values := FormValues(prompt, model);
      var before := ledger.user;
      gate := SubmitGate(values, before, now);
      if !ValidForm(values) {
        return;
      }
      if ledger.user.None? || LoginLocked(ledger.user, now) {
        ledger.OpenPlanModal();
        return;
      }
      var cost := CreditCostFor(values.model);
      if !HasSufficientCredits(Balance(ledger.user, now), cost) {
        return;
      }
      assert gate == Proceed(cost);
      if finishedAt == now {
        GateGuaranteesExactCharge(values, before, now);
      }
      Generate(cost, generation, finishedAt);
    }

    /** The part of a submission past the gate: generate, and charge `cost` only on success. */
    method Generate(cost: nat, generation: Generation, finishedAt: int)
      requires ledger.Valid()
      modifies this, ledger
      ensures ledger.Valid()
      ensures !isLoading
      ensures generatedMedia == if generation.Generated? then Some(generation.media) else None
      ensures ledger.user == if generation.Generated? then Deduction.DeductFromUser(old(ledger.user), cost, finishedAt)
                             else old(ledger.user)
      ensures ledger.accounts ==
        if generation.Generated? && old(ledger.user).Some? && cost <= TotalCredits(old(ledger.user).value.planHistory, finishedAt)
        then old(ledger.accounts)[ledger.user.value.email := ledger.user.value] else old(ledger.accounts)
      ensures ledger.sessionEmail == old(ledger.sessionEmail) && ledger.storedLastUsedEmail == old(ledger.storedLastUsedEmail)
      ensures ledger.lastUsedEmail == old(ledger.lastUsedEmail)
      ensures ledger.isPlanModalOpen == old(ledger.isPlanModalOpen)
      ensures prompt == old(prompt) && model == old(model) && downloading == old(downloading)
    {
      isLoading := true;
      generatedMedia := None;
      if generation.Generated? {
        generatedMedia := Some(generation.media);
        ledger.DeductCredits(cost, finishedAt);
      }
      isLoading := false;
    }

    /**
     * A click on the result: with media at a non-empty URL and no download
     * in flight, a download of it starts under the prompt's file name.
     */
    method DownloadClick() returns (request: Option<DownloadRequest>)
      modifies this
      ensures var idle := !(old(downloading).Some? && old(downloading).value != "");
        request == if generatedMedia.Some? && generatedMedia.value.url != "" && idle
                   then Some(DownloadRequest(generatedMedia.value.url, DownloadFilename(prompt, generatedMedia.value.kind)))
                   else None
      ensures downloading == if request.Some? then Some(request.value.url) else old(downloading)
      ensures prompt == old(prompt) && model == old(model)
      ensures generatedMedia == old(generatedMedia) && isLoading == old(isLoading)
    {
      request := None;
      if generatedMedia.Some? && generatedMedia.value.url != "" {
        var media := generatedMedia.value;
        var filename := DownloadFilename(prompt, media.kind);
        if downloading.Some? && downloading.value != "" {
          return;
        }
        downloading := Some(media.url);
        request := Some(DownloadRequest(media.url, filename));
      }
    }

    /** The download finished, successfully or not. */
    method DownloadFinished()
      modifies this
      ensures downloading.None?
      ensures prompt == old(prompt) && model == old(model)
      ensures generatedMedia == old(generatedMedia) && isLoading == old(isLoading)
    {
      downloading := None;
    }
  }
}

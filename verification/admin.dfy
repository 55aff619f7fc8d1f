/** The admin "Add Startup" page (src/app/admin/page.tsx): the admin e-mail
    gate, the hashtag normaliser, the ordered validation of the form, the
    insert payload and the form reset after a successful insert. The insert
    itself is a remote call; its outcome is a parameter. */
module Admin {
  import opened Wrappers
  import opened Text
  import Seqs

  // ----- access gate -----

  /** The `verify` effect: the lower-cased session e-mail (absent when there
      is no session) must be identical to the configured admin e-mail
      (absent when the setting is missing); otherwise the page redirects to
      the login page. */
  function AdminAccess(sessionEmail: Option<string>, adminEmail: Option<string>): (admit: bool)
    ensures adminEmail.Some? ==>
      (admit <==> sessionEmail.Some? && ToLower(sessionEmail.value) == adminEmail.value)
    ensures sessionEmail.None? ==> (admit <==> adminEmail.None?)
    ensures sessionEmail.Some? && adminEmail.None? ==> !admit
  {
    var email := match sessionEmail
      case None => None
      case Some(e) => Some(ToLower(e));
    email == adminEmail
  }

  /** Only the session side is lower-cased: a configured admin e-mail that
      holds an upper-case letter admits nobody. */
  lemma UpperCaseAdminEmailAdmitsNobody(sessionEmail: Option<string>, adminEmail: string)
    requires HasUpper(adminEmail)
    ensures !AdminAccess(sessionEmail, Some(adminEmail))
  {
    if sessionEmail.Some? {
      LowerHasNoUpper(sessionEmail.value);
    }
  }

  // ----- hashtag normaliser -----

  const MaxTags: nat := 20

  /** The class `[\s,]` the hashtag input is split on. */
  predicate IsTagSeparator(c: char) {
    IsSpace(c) || c == ','
  }

  predicate NonEmpty(t: string) {
    t != ""
  }

  /** `t.startsWith("#") ? t.slice(1) : t`: at most one leading `#` goes. */
  function StripHash(t: string): (r: string)
    ensures StartsWith(t, "#") ==> t == "#" + r
    ensures !StartsWith(t, "#") ==> r == t
  {
    if StartsWith(t, "#") then t[1..] else t
  }

  lemma StripHashKeepsOnly(t: string, p: char -> bool)
    ensures NoneOf(t, p) ==> NoneOf(StripHash(t), p)
  {
    if StartsWith(t, "#") && NoneOf(t, p) {
      var r := StripHash(t);
      forall k | 0 <= k < |r| ensures !p(r[k]) {
        assert r[k] == t[k + 1];
      }
    }
  }

  /** `pieces.map(trim).filter(Boolean).map(StripHash)`: each piece is
      trimmed, the empty ones are dropped, then one `#` is stripped. */
  function TokensFrom(pieces: seq<string>): (r: seq<string>)
    ensures |r| <= |pieces|
  {
    if |pieces| == 0 then []
    else
      var t := Trim(pieces[0]);
      var rest := TokensFrom(pieces[1..]);
      if t == "" then rest else [StripHash(t)] + rest
  }

  /** Only blank pieces are dropped: no token is left exactly when every
      piece is blank. */
  lemma {:induction false} TokensFromEmpty(pieces: seq<string>)
    ensures TokensFrom(pieces) == [] <==> AllBlank(pieces)
    decreases |pieces|
  {
    if |pieces| > 0 {
      TokensFromEmpty(pieces[1..]);
      AllBlankCons(pieces);
    }
  }

  /** Trimming and stripping a `#` add no character: a character no piece
      holds is in no token. */
  lemma {:induction false} TokensFromKeepsOnly(pieces: seq<string>, p: char -> bool)
    requires EachNoneOf(pieces, p)
    ensures EachNoneOf(TokensFrom(pieces), p)
    decreases |pieces|
  {
    if |pieces| > 0 {
      EachNoneOfTail(pieces, p);
      TokensFromKeepsOnly(pieces[1..], p);
      var t := Trim(pieces[0]);
      if t != "" {
        TrimKeepsOnly(pieces[0], p);
        StripHashKeepsOnly(t, p);
        EachNoneOfCons(StripHash(t), TokensFrom(pieces[1..]), p);
      }
    }
  }

  /** `ts.map(StripHash)`. */
  function StripAll(ts: seq<string>): (r: seq<string>)
    ensures |r| == |ts|
    ensures forall k :: 0 <= k < |ts| ==> r[k] == StripHash(ts[k])
  {
    seq(|ts|, k requires 0 <= k < |ts| => StripHash(ts[k]))
  }

  /** Pieces without white space need no trimming: the tokens are the
      non-empty pieces, in order, each with one `#` stripped. */
  lemma {:induction false} TokensFromUnspaced(pieces: seq<string>)
    requires EachNoneOf(pieces, IsTagSeparator)
    ensures TokensFrom(pieces) == StripAll(Seqs.Filter(NonEmpty, pieces))
    decreases |pieces|
  {
    if |pieces| > 0 {
      var p := pieces[0];
      EachNoneOfTail(pieces, IsTagSeparator);
      TokensFromUnspaced(pieces[1..]);
      UnseparatedIsTrimmed(p);
      var rest := Seqs.Filter(NonEmpty, pieces[1..]);
      if p != "" {
        assert Seqs.Filter(NonEmpty, pieces) == [p] + rest;
        StripAllCons(p, rest);
      } else {
        assert Seqs.Filter(NonEmpty, pieces) == rest;
      }
    }
  }

  lemma UnseparatedIsTrimmed(p: string)
    requires NoneOf(p, IsTagSeparator)
    ensures Trim(p) == p
  {
    assert NoneOf(p, IsSpace) by {
      forall k | 0 <= k < |p| ensures !IsSpace(p[k]) { assert !IsTagSeparator(p[k]); }
    }
    TrimOfUnspaced(p);
  }

  lemma StripAllCons(p: string, rest: seq<string>)
    ensures StripAll([p] + rest) == [StripHash(p)] + StripAll(rest)
  {
    var l := StripAll([p] + rest);
    var r := [StripHash(p)] + StripAll(rest);
    forall k | 0 <= k < |l| ensures l[k] == r[k] {
      if k > 0 { assert ([p] + rest)[k] == rest[k - 1]; }
    }
  }

  /** `hashtags.split(/[\s,]+/).map(trim).filter(Boolean).map(StripHash)`:
      the candidate tags before duplicates are removed. */
  function TagTokens(raw: string): (r: seq<string>)
    ensures EachNoneOf(r, IsTagSeparator)
  {
    var pieces := SplitOnRuns(raw, IsTagSeparator);
    assert EachNoneOf(TokensFrom(pieces), IsTagSeparator) by {
      assert EachNoneOf(pieces, IsTagSeparator);
      TokensFromKeepsOnly(pieces, IsTagSeparator);
    }
    TokensFrom(pieces)
  }

  /** The tokens are, in order, the non-empty pieces between separator
      runs, each with one leading `#` stripped: the pieces hold no white
      space, so trimming changes none of them. */
  lemma TagTokensAreStrippedPieces(raw: string)
    ensures TagTokens(raw) == StripAll(Seqs.Filter(NonEmpty, SplitOnRuns(raw, IsTagSeparator)))
  {
    TokensFromUnspaced(SplitOnRuns(raw, IsTagSeparator));
  }

  /** Words joined by one separator come back as the words, each with one
      `#` stripped. */
  lemma TagTokensOfJoin(words: seq<string>, c: char)
    requires |words| >= 1 && IsTagSeparator(c)
    requires forall k :: 0 <= k < |words| ==> words[k] != "" && NoneOf(words[k], IsTagSeparator)
    ensures TagTokens(Seqs.Join(words, [c])) == StripAll(words)
  {
    SplitOnRunsUndoesJoin(words, c, IsTagSeparator);
    Seqs.FilterKeepsAll(NonEmpty, words);
    TagTokensAreStrippedPieces(Seqs.Join(words, [c]));
  }

  /** The normalised tag list: the first twenty distinct tokens, in the
      order they first occur. */
  function NormalizeHashtags(raw: string): (tags: seq<string>)
    ensures |tags| <= MaxTags
    ensures Seqs.NoDuplicates(tags)
    ensures forall k :: 0 <= k < |tags| ==> tags[k] in TagTokens(raw)
    ensures |tags| < MaxTags ==> forall t :: t in TagTokens(raw) ==> t in tags
    ensures forall i, j :: 0 <= i < j < |tags| ==>
      Seqs.FirstIndex(TagTokens(raw), tags[i]) < Seqs.FirstIndex(TagTokens(raw), tags[j])
    ensures Seqs.KeepsEarlier(TagTokens(raw), tags)
  {
    Seqs.TakeDistinct(TagTokens(raw), MaxTags)
  }

  /** No normalised tag holds white space or a comma. */
  lemma NormalizedTagsHaveNoSeparator(raw: string)
    ensures EachNoneOf(NormalizeHashtags(raw), IsTagSeparator)
  {
    EachNoneOfElements(NormalizeHashtags(raw), TagTokens(raw), IsTagSeparator);
  }

  /** A piece holding no separator is blank only when it is empty. */
  lemma PiecesBlankIffEmpty(pieces: seq<string>)
    requires forall k :: 0 <= k < |pieces| ==> NoneOf(pieces[k], IsTagSeparator)
    ensures AllBlank(pieces) <==> AllEmpty(pieces)
  {
    forall k | 0 <= k < |pieces| ensures IsBlank(pieces[k]) <==> pieces[k] == [] {
      var t := pieces[k];
      assert NoneOf(t, IsTagSeparator);
      assert t == [] || !IsSpace(t[0]) by {
        if t != [] { assert !IsTagSeparator(t[0]); }
      }
      BlankOnlyIfEmpty(t);
    }
  }

  /** Pieces without separators give no token exactly when they are all
      empty. */
  lemma NoTokensIffEmptyPieces(pieces: seq<string>)
    requires forall k :: 0 <= k < |pieces| ==> NoneOf(pieces[k], IsTagSeparator)
    ensures TokensFrom(pieces) == [] <==> AllEmpty(pieces)
  {
    TokensFromEmpty(pieces);
    PiecesBlankIffEmpty(pieces);
  }

  /** The input gives no token exactly when it is all separators. */
  lemma NoTokensIffOnlySeparators(raw: string)
    ensures TagTokens(raw) == [] <==> All(raw, IsTagSeparator)
  {
    var pieces := SplitOnRuns(raw, IsTagSeparator);
    assert TagTokens(raw) == TokensFrom(pieces);
    NoTokensIffEmptyPieces(pieces);
    SplitOnRunsAllEmpty(raw, IsTagSeparator);
  }

  /** The list is empty exactly when the input holds nothing but white
      space and commas (in particular, when it is blank). */
  lemma NormalizeEmptyIffOnlySeparators(raw: string)
    ensures NormalizeHashtags(raw) == [] <==> All(raw, IsTagSeparator)
  {
    NoTokensIffOnlySeparators(raw);
    Seqs.TakeDistinctEmpty(TagTokens(raw), MaxTags);
  }

  /** Input without white space or commas is a single token. */
  lemma SingleTokenInput(raw: string)
    requires raw != "" && NoneOf(raw, IsTagSeparator)
    ensures NormalizeHashtags(raw) == [StripHash(raw)]
  {
    SplitOnRunsUnseparated(raw, IsTagSeparator);
    assert NoneOf(raw, IsSpace) by {
      forall k | 0 <= k < |raw| ensures !IsSpace(raw[k]) {
        assert !IsTagSeparator(raw[k]);
      }
    }
    TrimOfUnspaced(raw);
    assert TokensFrom([raw]) == [StripHash(raw)] by {
      assert [raw][1..] == [];
    }
    Seqs.TakeDistinctSingleton(StripHash(raw), MaxTags);
  }

  /** A lone `#` is kept as the empty tag: empty tokens are dropped before
      the `#` is stripped. */
  lemma LoneHashGivesEmptyTag()
    ensures NormalizeHashtags("#") == [""]
  {
    assert NoneOf("#", IsTagSeparator) by {
      assert "#"[0] == '#';
    }
    SingleTokenInput("#");
  }

  /** A `#` in front of a token adds no separator. */
  lemma HashPrefixAddsNoSeparator(x: string)
    requires NoneOf(x, IsTagSeparator)
    ensures NoneOf("#" + x, IsTagSeparator)
  {
    forall k | 0 <= k < |"#" + x| ensures !IsTagSeparator(("#" + x)[k]) {
      if k > 0 { assert ("#" + x)[k] == x[k - 1]; }
    }
  }

  /** Only one `#` is stripped, so normalising the joined output again is
      not the identity: `##x` gives `#x`, which gives `x`. */
  lemma NormalizeStripsOneHashOnly(x: string)
    requires NoneOf(x, IsTagSeparator)
    ensures NormalizeHashtags("##" + x) == ["#" + x]
    ensures NormalizeHashtags(Seqs.Join(NormalizeHashtags("##" + x), " ")) == [x]
  {
    HashPrefixAddsNoSeparator(x);
    HashPrefixAddsNoSeparator("#" + x);
    assert "#" + ("#" + x) == "##" + x;
    SingleTokenInput("##" + x);
    assert StripHash("##" + x) == "#" + x by {
      assert ("##" + x)[1..] == "#" + x;
    }
    assert Seqs.Join(["#" + x], " ") == "#" + x;
    SingleTokenInput("#" + x);
    assert StripHash("#" + x) == x by {
      assert ("#" + x)[1..] == x;
    }
  }

  // ----- the add-startup form -----

  datatype AddStartupForm = AddStartupForm(
    company: string,
    hashtags: string,
    shortDesc: string,
    detailedDesc: string,
    fundingInfo: string,
    founderLinkedIn: string,
    founderEmail: string,
    tips: string)

  const EmptyForm := AddStartupForm("", "", "", "", "", "", "", "")

  /** The row sent to the `StartupInfo` table. */
  datatype StartupInsert = StartupInsert(
    name: string,
    description: string,
    hashtags: seq<string>,
    extendedDescription: Option<string>,
    founderLinkedIn: Option<string>,
    founderEmail: Option<string>,
    fundingInfo: Option<string>,
    tips: Option<string>)

  const CompanyRequired := "Company Name is required."
  const ShortDescRequired := "Short Description is required."
  const HashtagRequired := "At least one hashtag is required."
  const NoValidHashtag := "Provide at least one valid hashtag."
  const StartupAdded := "Startup added successfully!"
  const UnexpectedInsertError := "Unexpected error while adding startup."

  /** `s.trim() || null`. */
  function TrimOrNull(s: string): (r: Option<string>)
    ensures r.None? <==> IsBlank(s)
    ensures r.Some? ==> r.value != "" && IsTrimmed(r.value) && Contains(s, r.value)
    ensures r.Some? ==> r.value == Trim(s)
  {
    var t := Trim(s);
    assert Contains(s, t) by { TrimIsSubstring(s); }
    if t == "" then None else Some(t)
  }

  /** An optional column: absent, or a non-empty trimmed text. */
  predicate WellFormedOptional(v: Option<string>) {
    v.Some? ==> v.value != "" && IsTrimmed(v.value)
  }

  /** The checks of `handleAddStartup` in their fixed order, then the
      payload. The first failing check decides the message. */
  function ValidateAddStartup(f: AddStartupForm): (r: Result<StartupInsert, string>)
    ensures IsBlank(f.company) ==> r == Failure(CompanyRequired)
    ensures !IsBlank(f.company) && IsBlank(f.shortDesc) ==> r == Failure(ShortDescRequired)
    ensures !IsBlank(f.company) && !IsBlank(f.shortDesc) && IsBlank(f.hashtags) ==>
      r == Failure(HashtagRequired)
    ensures !IsBlank(f.company) && !IsBlank(f.shortDesc) && !IsBlank(f.hashtags) ==>
      (r == Failure(NoValidHashtag) <==> All(f.hashtags, IsTagSeparator))
    ensures r.Success? <==> !IsBlank(f.company) && !IsBlank(f.shortDesc) && !All(f.hashtags, IsTagSeparator)
    ensures r.Success? ==>
      && r.value.name != "" && IsTrimmed(r.value.name) && Contains(f.company, r.value.name)
      && r.value.description != "" && IsTrimmed(r.value.description) && Contains(f.shortDesc, r.value.description)
      && 1 <= |r.value.hashtags| <= MaxTags && Seqs.NoDuplicates(r.value.hashtags)
      && WellFormedOptional(r.value.extendedDescription)
      && WellFormedOptional(r.value.founderLinkedIn)
      && WellFormedOptional(r.value.founderEmail)
      && WellFormedOptional(r.value.fundingInfo)
      && WellFormedOptional(r.value.tips)
    ensures r.Success? ==>
      && r.value.name == Trim(f.company)
      && r.value.description == Trim(f.shortDesc)
      && r.value.hashtags == NormalizeHashtags(f.hashtags)
      && r.value.extendedDescription == TrimOrNull(f.detailedDesc)
      && r.value.founderLinkedIn == TrimOrNull(f.founderLinkedIn)
      && r.value.founderEmail == TrimOrNull(f.founderEmail)
      && r.value.fundingInfo == TrimOrNull(f.fundingInfo)
      && r.value.tips == TrimOrNull(f.tips)
  {
    assert NormalizeHashtags(f.hashtags) == [] <==> All(f.hashtags, IsTagSeparator) by {
      NormalizeEmptyIffOnlySeparators(f.hashtags);
    }
    assert Contains(f.company, Trim(f.company)) by { TrimIsSubstring(f.company); }
    assert Contains(f.shortDesc, Trim(f.shortDesc)) by { TrimIsSubstring(f.shortDesc); }
    if Trim(f.company) == "" then Failure(CompanyRequired)
    else if Trim(f.shortDesc) == "" then Failure(ShortDescRequired)
    else if Trim(f.hashtags) == "" then Failure(HashtagRequired)
    else
      var tags := NormalizeHashtags(f.hashtags);
      if |tags| == 0 then Failure(NoValidHashtag)
      else Success(StartupInsert(
        Trim(f.company),
        Trim(f.shortDesc),
        tags,
        TrimOrNull(f.detailedDesc),
        TrimOrNull(f.founderLinkedIn),
        TrimOrNull(f.founderEmail),
        TrimOrNull(f.fundingInfo),
        TrimOrNull(f.tips)))
  }

  /** The remote insert: acknowledged, rejected with an error object, or a
      thrown exception whose message may be unavailable. */
  datatype InsertOutcome =
    | Inserted
    | InsertRejected(message: string)
    | InsertThrew(thrownMessage: Option<string>)

  datatype AdminState = AdminState(
    form: AddStartupForm,
    submitting: bool,
    submitError: Option<string>,
    submitSuccess: Option<string>)

  /** The new page state and the row sent to the store, if any. */
  datatype AddStep = AddStep(state: AdminState, sent: Option<StartupInsert>)

  /** The message shown for a failed insert: the store's own message, else
      the thrown error's message, else a fixed fallback. */
  function InsertErrorMessage(outcome: InsertOutcome): (m: string)
    requires !outcome.Inserted?
    ensures outcome.InsertRejected? ==> m == outcome.message
    ensures outcome.InsertThrew? && outcome.thrownMessage.Some? ==> m == outcome.thrownMessage.value
    ensures outcome.InsertThrew? && outcome.thrownMessage.None? ==> m == UnexpectedInsertError
  {
    match outcome
    case InsertRejected(m) => m
    case InsertThrew(m) => m.GetOr(UnexpectedInsertError)
  }

  /** `handleAddStartup`: validation failures send nothing and only set the
      message; a sent row either clears all eight fields and reports
      success, or keeps the fields and shows the store's message. */
  function HandleAddStartup(s: AdminState, outcome: InsertOutcome): (r: AddStep)
    ensures r.sent.Some? <==> ValidateAddStartup(s.form).Success?
    ensures r.sent.Some? ==> r.sent == Some(ValidateAddStartup(s.form).value)
    ensures r.sent.None? ==>
      r.state == s.(submitError := Some(ValidateAddStartup(s.form).error), submitSuccess := None)
    ensures r.sent.Some? && outcome.Inserted? ==>
      r.state == AdminState(EmptyForm, false, None, Some(StartupAdded))
    ensures r.sent.Some? && !outcome.Inserted? ==>
      && r.state.form == s.form && !r.state.submitting
      && r.state.submitError == Some(InsertErrorMessage(outcome))
      && r.state.submitSuccess == None
  {
    var cleared := s.(submitError := None, submitSuccess := None);
    match ValidateAddStartup(s.form)
    case Failure(msg) => AddStep(cleared.(submitError := Some(msg)), None)
    case Success(row) =>
      if outcome.Inserted? then
        AddStep(AdminState(EmptyForm, false, None, Some(StartupAdded)), Some(row))
      else
        AddStep(cleared.(submitting := false, submitError := Some(InsertErrorMessage(outcome))), Some(row))
  }
}

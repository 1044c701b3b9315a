/**
 * BuddyBoss member types derived from the profiles configuration: the
 * slug derivation shared with the role names, the default label, the
 * outcome of one term creation and the created/registered/errors report
 * of `register`. The BuddyBoss calls are parameters.
 */
module MemberTypeSeeder {
  import opened Php
  import ProfileResolver

  const SlugPrefix: string := "fpse_"

  /** The longest slug BuddyBoss and WordPress accept. */
  const MaxSlugLength: nat := 40

  /**
   * `getMemberTypeForProfile` (and the identical private
   * `getMemberTypeSlug` and the role-name derivation): 'fpse_' followed
   * by the lower-cased identifier with '-' turned into '_', cut to 40
   * characters.
   */
  function MemberTypeForProfile(profileId: string): (slug: string)
    ensures |slug| <= MaxSlugLength
    ensures StartsWith(slug, SlugPrefix)
    ensures '-' !in slug
    ensures forall i :: 0 <= i < |slug| ==> !IsUpperChar(slug[i])
  {
    var full := SlugPrefix + ReplaceChar(ToLower(profileId), '-', '_');
    if |full| > MaxSlugLength then full[..MaxSlugLength] else full
  }

  /**
   * Character by character, the slug is the prefix followed by the
   * identifier lower-cased with dashes turned into underscores, for as
   * many characters as fit in 40.
   */
  lemma MemberTypeForProfileExact(profileId: string)
    ensures |MemberTypeForProfile(profileId)| == if |profileId| + 5 <= 40 then |profileId| + 5 else 40
    ensures forall i :: 0 <= i < |MemberTypeForProfile(profileId)| - 5 ==>
      MemberTypeForProfile(profileId)[i + 5] == if profileId[i] == '-' then '_' else LowerChar(profileId[i])
  {
  }

  /** An identifier that is already a slug body (lower case, no dash, short enough) is kept verbatim after the prefix. */
  lemma MemberTypeForLowercaseId(profileId: string)
    requires |profileId| <= 35
    requires forall i :: 0 <= i < |profileId| ==> !IsUpperChar(profileId[i]) && profileId[i] != '-'
    ensures MemberTypeForProfile(profileId) == SlugPrefix + profileId
  {
    var slug := MemberTypeForProfile(profileId);
    MemberTypeForProfileExact(profileId);
    assert forall i :: 0 <= i < |slug| ==> slug[i] == (SlugPrefix + profileId)[i];
  }

  /** `ucfirst(str_replace('-', ' ', $profileId))`. */
  function DefaultLabel(profileId: string): (caption: string)
    ensures |caption| == |profileId|
    ensures '-' !in caption
    ensures caption != [] ==> caption[0] == UpperChar(if profileId[0] == '-' then ' ' else profileId[0])
    ensures forall i :: 0 < i < |caption| ==> caption[i] == if profileId[i] == '-' then ' ' else profileId[i]
  {
    var spaced := ReplaceChar(profileId, '-', ' ');
    if spaced == [] then [] else [UpperChar(spaced[0])] + spaced[1..]
  }

  /** `$profileData['label'] ?? ucfirst(...)`. */
  function LabelOf(profileId: string, profile: ProfileResolver.Profile): (caption: string)
    ensures profile.displayLabel.None? ==> caption == DefaultLabel(profileId)
    ensures profile.displayLabel.Some? ==> caption == profile.displayLabel.value
  {
    match profile.displayLabel
    case Some(l) => l
    case None => DefaultLabel(profileId)
  }

  /** What `wp_insert_post` or `wp_update_post` gives back. */
  datatype PostWrite = PostId(id: int) | WpError(message: string)

  datatype TermOutcome = TermOutcome(success: bool, created: bool, error: string)

  /**
   * `createMemberTypeTerm`: fails when the post type is missing; updates
   * the post already carrying this member type's key, or else inserts
   * one; a write succeeds when it yields a positive post id.
   */
  function CreateMemberTypeTerm(postTypeExists: bool, existingPost: bool, write: PostWrite): (r: TermOutcome)
    ensures r.success <==> postTypeExists && write.PostId? && write.id > 0
    ensures r.created <==> r.success && !existingPost
    ensures !postTypeExists ==> r.error == "Custom post type bp-member-type não existe. BuddyBoss pode não estar totalmente carregado."
    ensures postTypeExists && write.WpError? ==> r.error == write.message
  {
    if !postTypeExists then
      TermOutcome(false, false, "Custom post type bp-member-type não existe. BuddyBoss pode não estar totalmente carregado.")
    else if write.PostId? && write.id > 0 then TermOutcome(true, !existingPost, "")
    else
      var message := if write.WpError? then write.message
        else if existingPost then "Falha ao atualizar post" else "Falha ao criar post";
      TermOutcome(false, false, message)
  }

  datatype RegisterReport = RegisterReport(created: seq<string>, registered: seq<string>, errors: seq<string>)

  /** One iteration of `register`'s loop. */
  function RegisterStep(r: RegisterReport, profileId: string, term: TermOutcome, registers: bool): RegisterReport
  {
    if term.success then
      RegisterReport(if term.created then r.created + [profileId] else r.created,
                     if registers then r.registered + [profileId] else r.registered,
                     r.errors)
    else RegisterReport(r.created, r.registered, r.errors + ["Perfil " + profileId + ": " + term.error])
  }

  /** The report after the loop has visited `profiles`, in order. */
  function RegisterAll(profiles: ProfileResolver.Profiles, term: (string, ProfileResolver.Profile) -> TermOutcome,
                       registers: (string, ProfileResolver.Profile) -> bool): RegisterReport
  {
    if profiles == [] then RegisterReport([], [], [])
    else
      var last := profiles[|profiles| - 1];
      RegisterStep(RegisterAll(profiles[..|profiles| - 1], term, registers), last.0, term(last.0, last.1), registers(last.0, last.1))
  }

  /** What `register` returns. */
  function Registration(apiLoaded: bool, profiles: ProfileResolver.Profiles, term: (string, ProfileResolver.Profile) -> TermOutcome,
                        registers: (string, ProfileResolver.Profile) -> bool): RegisterReport
  {
    if !apiLoaded then RegisterReport([], [], ["BuddyBoss plugin não está ativo"])
    else RegisterAll(profiles, term, registers)
  }

  /**
   * `register`: `apiLoaded` is whether `bp_register_member_type` exists,
   * `term` the outcome of creating each profile's term, and `registers`
   * whether BuddyBoss accepts each runtime registration.
   */
  method Register(apiLoaded: bool, profiles: ProfileResolver.Profiles, term: (string, ProfileResolver.Profile) -> TermOutcome,
                  registers: (string, ProfileResolver.Profile) -> bool) returns (r: RegisterReport)
    ensures r == Registration(apiLoaded, profiles, term, registers)
  {
    if !apiLoaded {
      return RegisterReport([], [], ["BuddyBoss plugin não está ativo"]);
    }
    var created: seq<string> := [];
    var registered: seq<string> := [];
    var errors: seq<string> := [];
    var i := 0;
    while i < |profiles|
      invariant 0 <= i <= |profiles|
      invariant RegisterReport(created, registered, errors) == RegisterAll(profiles[..i], term, registers)
    {
      assert profiles[..i + 1][..i] == profiles[..i];
      var (profileId, profileData) := profiles[i];
      var createResult := term(profileId, profileData);
      if createResult.success {
        if createResult.created {
          created := created + [profileId];
        }
        if registers(profileId, profileData) {
          registered := registered + [profileId];
        }
      } else {
        errors := errors + ["Perfil " + profileId + ": " + createResult.error];
      }
      i := i + 1;
    }
    assert profiles[..i] == profiles;
    r := RegisterReport(created, registered, errors);
  }

  /** The profiles whose term creation fails, in order. */
  function Failed(profiles: ProfileResolver.Profiles, term: (string, ProfileResolver.Profile) -> TermOutcome): (r: seq<string>)
    ensures |r| <= |profiles|
  {
    if profiles == [] then []
    else
      var last := profiles[|profiles| - 1];
      var init := Failed(profiles[..|profiles| - 1], term);
      if term(last.0, last.1).success then init else init + [last.0]
  }

  /** A profile is listed as failed exactly when it is configured and its term creation fails. */
  lemma {:induction false} FailedExactly(profiles: ProfileResolver.Profiles, term: (string, ProfileResolver.Profile) -> TermOutcome,
                                         id: string)
    ensures id in Failed(profiles, term) <==> exists p :: (id, p) in profiles && !term(id, p).success
  {
    if profiles != [] {
      var init := profiles[..|profiles| - 1];
      var last := profiles[|profiles| - 1];
      FailedExactly(init, term, id);
      SplitLast(profiles);
      if exists p :: (id, p) in profiles && !term(id, p).success {
        var p :| (id, p) in profiles && !term(id, p).success;
        if (id, p) != last {
          assert (id, p) in init;
        }
      }
    }
  }

  /**
   * Without the BuddyBoss API `register` reports one error and nothing
   * else. Otherwise a profile is created only if its term creation
   * succeeded and created a post, registered only if its term creation
   * succeeded and BuddyBoss accepted it, and each failing profile
   * contributes exactly one error.
   */
  lemma {:induction false} RegisterPartition(apiLoaded: bool, profiles: ProfileResolver.Profiles,
                                             term: (string, ProfileResolver.Profile) -> TermOutcome,
                                             registers: (string, ProfileResolver.Profile) -> bool)
    ensures !apiLoaded ==> Registration(apiLoaded, profiles, term, registers) == RegisterReport([], [], ["BuddyBoss plugin não está ativo"])
    ensures apiLoaded ==> |Registration(apiLoaded, profiles, term, registers).errors| == |Failed(profiles, term)|
    ensures apiLoaded ==> forall id :: id in Registration(apiLoaded, profiles, term, registers).created ==>
      exists p :: (id, p) in profiles && term(id, p).success && term(id, p).created
    ensures apiLoaded ==> forall id :: id in Registration(apiLoaded, profiles, term, registers).registered ==>
      exists p :: (id, p) in profiles && term(id, p).success && registers(id, p)
    ensures apiLoaded ==> IsSubsequence(Registration(apiLoaded, profiles, term, registers).created, Keys(profiles))
    ensures apiLoaded ==> IsSubsequence(Registration(apiLoaded, profiles, term, registers).registered, Keys(profiles))
  {
    if apiLoaded {
      RegisterAllPartition(profiles, term, registers);
    }
  }

  lemma {:induction false} RegisterAllPartition(profiles: ProfileResolver.Profiles,
                                                term: (string, ProfileResolver.Profile) -> TermOutcome,
                                                registers: (string, ProfileResolver.Profile) -> bool)
    ensures |RegisterAll(profiles, term, registers).errors| == |Failed(profiles, term)|
    ensures forall id :: id in RegisterAll(profiles, term, registers).created ==>
      exists p :: (id, p) in profiles && term(id, p).success && term(id, p).created
    ensures forall id :: id in RegisterAll(profiles, term, registers).registered ==>
      exists p :: (id, p) in profiles && term(id, p).success && registers(id, p)
    ensures IsSubsequence(RegisterAll(profiles, term, registers).created, Keys(profiles))
    ensures IsSubsequence(RegisterAll(profiles, term, registers).registered, Keys(profiles))
  {
    if profiles != [] {
      var init := profiles[..|profiles| - 1];
      var last := profiles[|profiles| - 1];
      RegisterAllPartition(init, term, registers);
      SplitLast(profiles);
      KeysAppend(init, [last]);
      assert Keys([last]) == [last.0];
      var r := RegisterAll(init, term, registers);
      SubsequenceSnoc(r.created, Keys(init), last.0);
      SubsequenceSnoc(r.registered, Keys(init), last.0);
      assert forall x :: x in init ==> x in profiles;
    }
  }
}

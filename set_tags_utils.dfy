/**
 * The tag-derivation helpers of the service-catalog tagger (`set_tags/utils.py`):
 * owner id, product name and access-approved-role tags read off the resource
 * tags, user-profile tags through an allow-list with value sanitising, team
 * resolution and team tags, and the marketplace tags.
 */
module SetTagsUtils {
  import opened TagModel

  const MarketplaceTagPrefix: string := "marketplace"
  const ProvisionedProductArnKey: string := "aws:servicecatalog:provisionedProductArn"
  const AccessApprovedCallerKey: string := "Protected/AccessApprovedCaller"

  /** `SYNAPSE_USER_PROFILE_INCLUDES`, the default allow-list of profile keys. */
  const SynapseUserProfileIncludes: seq<string> :=
    ["ownerId", "firstName", "lastName", "userName", "company", "teamName"]

  // ---------------------------------------------------------------------------
  // Values read off the resource tags
  // ---------------------------------------------------------------------------

  /** `get_synapse_owner_id`: the last '/' segment of the first principal-ARN tag. */
  function GetSynapseOwnerId(tags: seq<Tag>): (r: Result<string>)
    ensures r.Failure? <==> !HasKey(tags, PrincipalArnKey)
    ensures r.Failure? ==> r.error == MissingTagError(PrincipalArnKey)
    ensures r.Success? ==>
              exists i: nat :: IsFirstWithKey(tags, PrincipalArnKey, i) && IsLastSegment(tags[i].value, r.value)
    ensures r.Success? ==>
              exists i: nat :: IsFirstWithKey(tags, PrincipalArnKey, i) && ('/' !in tags[i].value ==> r.value == tags[i].value)
  {
    match FindTag(tags, PrincipalArnKey)
    case None => Failure(MissingTagError(PrincipalArnKey))
    case Some(i) => Success(LastSegment(tags[i].value))
  }

  /** The first tag keyed `key`, if any, has a value with a '/' (else `split('/')[-2]` fails). */
  ghost predicate FirstValueHasSlash(tags: seq<Tag>, key: string)
  {
    forall i: nat :: IsFirstWithKey(tags, key, i) ==> '/' in tags[i].value
  }

  /** `get_provisioned_product_name_tag`: a `Name` tag holding the second-to-last segment. */
  function GetProvisionedProductNameTag(tags: seq<Tag>): (r: Result<Tag>)
    requires FirstValueHasSlash(tags, ProvisionedProductArnKey)
    ensures r.Failure? <==> !HasKey(tags, ProvisionedProductArnKey)
    ensures r.Failure? ==> r.error == MissingTagError(ProvisionedProductArnKey)
    ensures r.Success? ==> r.value.key == "Name"
    ensures r.Success? ==>
              exists i: nat :: IsFirstWithKey(tags, ProvisionedProductArnKey, i)
                && var arn := tags[i].value;
                   IsLastSegment(arn[..|arn| - |LastSegment(arn)| - 1], r.value.value)
  {
    match FindTag(tags, ProvisionedProductArnKey)
    case None => Failure(MissingTagError(ProvisionedProductArnKey))
    case Some(i) => Success(Tag("Name", SecondToLastSegment(tags[i].value)))
  }

  /**
   * `get_access_approved_role_tag`: `<RoleId>:<owner id>`, where the role is the
   * second-to-last segment of the principal ARN and `roleIdOf` stands for the
   * IAM `get_role` lookup of its id.
   */
  function GetAccessApprovedRoleTag(tags: seq<Tag>, roleIdOf: string -> string): (r: Result<Tag>)
    requires FirstValueHasSlash(tags, PrincipalArnKey)
    ensures r.Failure? <==> !HasKey(tags, PrincipalArnKey)
    ensures r.Failure? ==> r.error == MissingTagError(PrincipalArnKey)
    ensures r.Success? ==> r.value.key == AccessApprovedCallerKey
    ensures r.Success? ==>
              exists i: nat :: IsFirstWithKey(tags, PrincipalArnKey, i)
                && var arn := tags[i].value;
                   var owner := LastSegment(arn);
                   var role := arn[..|arn| - |owner| - 1];
                   IsLastSegment(arn, owner)
                   && r.value.value == roleIdOf(LastSegment(role)) + ":" + owner
    ensures r.Success? ==> GetSynapseOwnerId(tags).Success?
  {
    match FindTag(tags, PrincipalArnKey)
    case None => Failure(MissingTagError(PrincipalArnKey))
    case Some(i) =>
      var arn := tags[i].value;
      var role := SecondToLastSegment(arn);
      assert role == LastSegment(arn[..|arn| - |LastSegment(arn)| - 1]) by {
        LastSegmentUnique(arn[..|arn| - |LastSegment(arn)| - 1], role);
      }
      Success(Tag(AccessApprovedCallerKey, roleIdOf(role) + ":" + LastSegment(arn)))
  }

  /** `IsLastSegment` pins its second argument down: it can only be `LastSegment`. */
  lemma LastSegmentUnique(s: string, t: string)
    requires IsLastSegment(s, t)
    ensures t == LastSegment(s)
  {
  }

  // ---------------------------------------------------------------------------
  // Sanitising tag values
  // ---------------------------------------------------------------------------

  /** A character the pattern `[^a-zA-Z0-9.+=_:@/\-]` does not match. */
  predicate IsValidTagChar(c: char)
  {
    || ('a' <= c <= 'z') || ('A' <= c <= 'Z') || ('0' <= c <= '9')
    || c == '.' || c == '+' || c == '=' || c == '_' || c == ':' || c == '@' || c == '/' || c == '-'
  }

  /** Every character is a valid tag character or a space. */
  predicate IsSanitized(s: string)
  {
    forall i :: 0 <= i < |s| ==> IsValidTagChar(s[i]) || s[i] == ' '
  }

  /** `re.sub(VALID_TAG_CHARS, ' ', value)`. */
  function Sanitize(s: string): (r: string)
    ensures |r| == |s|
    ensures IsSanitized(r)
    ensures forall i :: 0 <= i < |s| && IsValidTagChar(s[i]) ==> r[i] == s[i]
    ensures forall i :: 0 <= i < |s| && !IsValidTagChar(s[i]) ==> r[i] == ' '
  {
    seq(|s|, i requires 0 <= i < |s| => if IsValidTagChar(s[i]) then s[i] else ' ')
  }

  /** A value is left unchanged by sanitising exactly when it is already sanitised. */
  lemma SanitizeFixpoint(s: string)
    ensures Sanitize(s) == s <==> IsSanitized(s)
  {
    if IsSanitized(s) {
      forall i | 0 <= i < |s| ensures Sanitize(s)[i] == s[i] {
        if !IsValidTagChar(s[i]) {
          assert s[i] == ' ';
        }
      }
    }
  }

  /** Sanitising twice is sanitising once. */
  lemma SanitizeIdempotent(s: string)
    ensures Sanitize(Sanitize(s)) == Sanitize(s)
  {
    SanitizeFixpoint(Sanitize(s));
  }

  /** The derived email of a sanitised user name is sanitised too. */
  lemma SynapseEmailSanitized(userName: string)
    requires IsSanitized(userName)
    ensures IsSanitized(SynapseEmail(userName))
  {
    var e := SynapseEmail(userName);
    forall i | 0 <= i < |e| ensures IsValidTagChar(e[i]) || e[i] == ' ' {
      if i >= |userName| {
        assert e[i] == EmailDomain[i - |userName|];
      } else {
        assert e[i] == userName[i];
      }
    }
  }

  // ---------------------------------------------------------------------------
  // User-profile tags (allow-list)
  // ---------------------------------------------------------------------------

  /** The tags one profile entry contributes. */
  function FieldTags(f: Field, includes: seq<string>): seq<Tag>
  {
    if f.name !in includes then []
    else
      var value := Sanitize(f.value);
      (if f.name == UserNameField
       then [Tag(SynapseKey("email"), SynapseEmail(value)), Tag(OwnerEmailKey, SynapseEmail(value))]
       else [])
      + [Tag(SynapseKey(f.name), value)]
  }

  /** What `get_synapse_user_profile_tags` returns: the entries' tags in profile order. */
  function ProfileTags(profile: Profile, includes: seq<string>): seq<Tag>
  {
    if |profile| == 0 then []
    else ProfileTags(profile[..|profile| - 1], includes) + FieldTags(profile[|profile| - 1], includes)
  }

  /** `get_synapse_user_profile_tags`. */
  method GetSynapseUserProfileTags(userProfile: Profile, includes: seq<string>) returns (tags: seq<Tag>)
    ensures tags == ProfileTags(userProfile, includes)
  {
    tags := [];
    var i := 0;
    while i < |userProfile|
      invariant 0 <= i <= |userProfile|
      invariant tags == ProfileTags(userProfile[..i], includes)
    {
      assert userProfile[..i + 1][..i] == userProfile[..i];
      var key, value := userProfile[i].name, userProfile[i].value;
      if key !in includes {
        i := i + 1;
        continue;
      }
      value := Sanitize(value);
      if key == UserNameField {
        var synapseEmail := SynapseEmail(value);
        tags := tags + [Tag(SynapseKey("email"), synapseEmail)];
        tags := tags + [Tag(OwnerEmailKey, synapseEmail)];
      }
      var tag := Tag(SynapseKey(key), value);
      tags := tags + [tag];
      i := i + 1;
    }
    assert userProfile[..i] == userProfile;
  }

  /** Profile tags distribute over splitting the profile. */
  lemma {:induction false} ProfileTagsConcat(a: Profile, b: Profile, includes: seq<string>)
    ensures ProfileTags(a + b, includes) == ProfileTags(a, includes) + ProfileTags(b, includes)
    decreases |b|
  {
    if |b| == 0 {
      assert a + b == a;
    } else {
      var b' := b[..|b| - 1];
      var last := b[|b| - 1];
      ProfileTagsConcat(a, b', includes);
      assert (a + b)[..|a + b| - 1] == a + b';
      assert (a + b)[|a + b| - 1] == last;
      calc {
        ProfileTags(a + b, includes);
        ProfileTags(a + b', includes) + FieldTags(last, includes);
        ProfileTags(a, includes) + ProfileTags(b', includes) + FieldTags(last, includes);
        ProfileTags(a, includes) + (ProfileTags(b', includes) + FieldTags(last, includes));
        ProfileTags(a, includes) + ProfileTags(b, includes);
      }
    }
  }

  /** A key outside the allow-list contributes nothing. */
  lemma ProfileTagsSkipExcluded(a: Profile, f: Field, b: Profile, includes: seq<string>)
    requires f.name !in includes
    ensures ProfileTags(a + [f] + b, includes) == ProfileTags(a + b, includes)
  {
    assert ProfileTags([f], includes) == [] by {
      assert ProfileTags([f], includes) == ProfileTags([], includes) + FieldTags(f, includes);
    }
    calc {
      ProfileTags(a + [f] + b, includes);
      { ProfileTagsConcat(a + [f], b, includes); }
      ProfileTags(a + [f], includes) + ProfileTags(b, includes);
      { ProfileTagsConcat(a, [f], includes); }
      ProfileTags(a, includes) + ProfileTags(b, includes);
      { ProfileTagsConcat(a, b, includes); }
      ProfileTags(a + b, includes);
    }
  }

  /** An allowed key other than `userName` contributes exactly its sanitised `synapse:<key>` tag, in place. */
  lemma ProfileTagsKeepIncluded(a: Profile, f: Field, b: Profile, includes: seq<string>)
    requires f.name in includes && f.name != UserNameField
    ensures ProfileTags(a + [f] + b, includes)
            == ProfileTags(a, includes) + [Tag(SynapseKey(f.name), Sanitize(f.value))] + ProfileTags(b, includes)
  {
    ProfileTagsConcat(a + [f], b, includes);
    ProfileTagsConcat(a, [f], includes);
    assert ProfileTags([f], includes) == ProfileTags([], includes) + FieldTags(f, includes);
  }

  /** An allowed `userName` contributes the two email tags directly before its own tag. */
  lemma ProfileTagsUserName(a: Profile, f: Field, b: Profile, includes: seq<string>)
    requires f.name == UserNameField && UserNameField in includes
    ensures var v := Sanitize(f.value);
            ProfileTags(a + [f] + b, includes)
            == ProfileTags(a, includes)
               + [Tag(SynapseKey("email"), v + "@synapse.org"),
                  Tag("OwnerEmail", v + "@synapse.org"),
                  Tag(SynapseKey("userName"), v)]
               + ProfileTags(b, includes)
  {
    ProfileTagsConcat(a + [f], b, includes);
    ProfileTagsConcat(a, [f], includes);
    assert ProfileTags([f], includes) == ProfileTags([], includes) + FieldTags(f, includes);
  }

  /** Every emitted value consists of valid tag characters and spaces only. */
  lemma {:induction false} ProfileTagsSanitized(p: Profile, includes: seq<string>)
    ensures forall t :: t in ProfileTags(p, includes) ==> IsSanitized(t.value)
  {
    if |p| > 0 {
      ProfileTagsSanitized(p[..|p| - 1], includes);
      SynapseEmailSanitized(Sanitize(p[|p| - 1].value));
    }
  }

  /** Number of profile entries whose key is allowed. */
  function IncludedCount(p: Profile, includes: seq<string>): nat
  {
    if |p| == 0 then 0
    else IncludedCount(p[..|p| - 1], includes) + (if p[|p| - 1].name in includes then 1 else 0)
  }

  /** One tag per allowed entry plus two email tags per allowed `userName` entry. */
  lemma {:induction false} ProfileTagsLength(p: Profile, includes: seq<string>)
    ensures |ProfileTags(p, includes)|
            == IncludedCount(p, includes) + (if UserNameField in includes then 2 * NameCount(p, UserNameField) else 0)
  {
    if |p| > 0 {
      ProfileTagsLength(p[..|p| - 1], includes);
    }
  }

  /** For a profile (distinct keys): the allowed entries plus 2 when `userName` is allowed and present. */
  lemma ProfileTagsLengthOfDistinct(p: Profile, includes: seq<string>)
    requires DistinctNames(p)
    ensures |ProfileTags(p, includes)|
            == IncludedCount(p, includes) + (if UserNameField in includes && HasField(p, UserNameField) then 2 else 0)
  {
    ProfileTagsLength(p, includes);
    NameCountOfDistinct(p, UserNameField);
  }

  /** Every emitted key comes from an allowed entry, or is an email key owed to an allowed `userName`. */
  lemma {:induction false} ProfileTagsKeys(p: Profile, includes: seq<string>)
    ensures forall t :: t in ProfileTags(p, includes) ==>
              (exists f :: f in p && f.name in includes && t.key == SynapseKey(f.name))
              || ((t.key == SynapseKey("email") || t.key == OwnerEmailKey)
                  && UserNameField in includes && HasField(p, UserNameField))
  {
    if |p| > 0 {
      var init := p[..|p| - 1];
      var last := p[|p| - 1];
      ProfileTagsKeys(init, includes);
      forall t | t in ProfileTags(p, includes)
        ensures (exists f :: f in p && f.name in includes && t.key == SynapseKey(f.name))
                || ((t.key == SynapseKey("email") || t.key == OwnerEmailKey)
                    && UserNameField in includes && HasField(p, UserNameField))
      {
        if t in ProfileTags(init, includes) {
          if exists f :: f in init && f.name in includes && t.key == SynapseKey(f.name) {
            var f :| f in init && f.name in includes && t.key == SynapseKey(f.name);
            assert f in p;
          } else {
            var i :| 0 <= i < |init| && init[i].name == UserNameField;
            assert p[i].name == UserNameField;
          }
        } else {
          assert t in FieldTags(last, includes);
          assert last in p;
          if last.name == UserNameField {
            assert p[|p| - 1].name == UserNameField;
          }
        }
      }
    }
  }

  /** Without `userName` in the allow-list there is no `OwnerEmail` tag, and a `synapse:email` tag can only come from an allowed `email` entry. */
  lemma NoEmailTagsWithoutUserName(p: Profile, includes: seq<string>)
    requires UserNameField !in includes
    ensures forall t :: t in ProfileTags(p, includes) ==> t.key != OwnerEmailKey
    ensures forall t :: t in ProfileTags(p, includes) && t.key == SynapseKey("email") ==> "email" in includes
  {
    ProfileTagsKeys(p, includes);
    forall t | t in ProfileTags(p, includes)
      ensures t.key != OwnerEmailKey && (t.key == SynapseKey("email") ==> "email" in includes)
    {
      var f :| f in p && f.name in includes && t.key == SynapseKey(f.name);
      OwnerEmailNotSynapseKey(f.name);
      SynapseKeyInjective(f.name, "email");
    }
  }

  // ---------------------------------------------------------------------------
  // Teams
  // ---------------------------------------------------------------------------

  /** `get_synapse_team_ids`, from the decoded roster on: the `teamId` of each entry. */
  method GetSynapseTeamIds(teamToRoleArnMap: seq<RosterEntry>) returns (teamIds: seq<string>)
    ensures |teamIds| == |teamToRoleArnMap|
    ensures forall i :: 0 <= i < |teamToRoleArnMap| ==> teamIds[i] == teamToRoleArnMap[i].teamId
  {
    teamIds := [];
    var i := 0;
    while i < |teamToRoleArnMap|
      invariant 0 <= i <= |teamToRoleArnMap|
      invariant |teamIds| == i
      invariant forall j :: 0 <= j < i ==> teamIds[j] == teamToRoleArnMap[j].teamId
    {
      teamIds := teamIds + [teamToRoleArnMap[i].teamId];
      i := i + 1;
    }
  }

  /**
   * `get_synapse_user_team_id`: the first team in `teamIds` that the user is a
   * member of. `isMember` stands for the membership-status query; `queried`
   * records the teams asked about, in order.
   */
  method GetSynapseUserTeamId(synapseId: string, teamIds: seq<string>, isMember: (string, string) -> bool)
    returns (teamId: Option<string>, ghost queried: seq<string>)
    ensures teamId == FirstMember(synapseId, teamIds, isMember)
    ensures teamId.Some? ==> exists k: nat :: IsFirstMemberAt(synapseId, teamIds, isMember, k) && teamIds[k] == teamId.value
    ensures teamId.None? <==> forall j :: 0 <= j < |teamIds| ==> !isMember(synapseId, teamIds[j])
    ensures teamId.None? ==> queried == teamIds
    ensures teamId.Some? ==>
              0 < |queried| <= |teamIds| && queried == teamIds[..|queried|]
              && IsFirstMemberAt(synapseId, teamIds, isMember, |queried| - 1) && queried[|queried| - 1] == teamId.value
  {
    queried := [];
    var i := 0;
    while i < |teamIds|
      invariant 0 <= i <= |teamIds|
      invariant queried == teamIds[..i]
      invariant forall j :: 0 <= j < i ==> !isMember(synapseId, teamIds[j])
    {
      queried := queried + [teamIds[i]];
      if isMember(synapseId, teamIds[i]) {
        assert IsFirstMemberAt(synapseId, teamIds, isMember, i);
        FirstMemberIsFirst(synapseId, teamIds, isMember);
        return Some(teamIds[i]), queried;
      }
      i := i + 1;
    }
    FirstMemberIsFirst(synapseId, teamIds, isMember);
    return None, queried;
  }

  /** `get_synapse_user_team_tags`: at most one `synapse:teamId` tag, for a team the user is in. */
  method GetSynapseUserTeamTags(synapseId: string, synapseTeamIds: seq<string>, isMember: (string, string) -> bool)
    returns (tags: seq<Tag>)
    ensures tags == TeamTags(FirstMember(synapseId, synapseTeamIds, isMember))
    ensures |tags| <= 1
    ensures forall t :: t in tags ==>
              t.key == SynapseKey("teamId") && t.value in synapseTeamIds && isMember(synapseId, t.value)
    ensures tags != [] <==>
              exists k: nat :: IsFirstMemberAt(synapseId, synapseTeamIds, isMember, k) && synapseTeamIds[k] != ""
  {
    FirstMemberIsFirst(synapseId, synapseTeamIds, isMember);
    if k: nat :| IsFirstMemberAt(synapseId, synapseTeamIds, isMember, k) && synapseTeamIds[k] != "" {
      FirstMemberAt(synapseId, synapseTeamIds, isMember, k);
    }
    tags := [];
    var userTeamId, _ := GetSynapseUserTeamId(synapseId, synapseTeamIds, isMember);
    if userTeamId.Some? && userTeamId.value != "" {
      tags := tags + [Tag(SynapseKey("teamId"), userTeamId.value)];
    }
  }

  /**
   * `get_synapse_tags`: profile tags (default allow-list) followed by team tags.
   * The profile and the roster stand for the Synapse and parameter-store lookups.
   */
  method GetSynapseTags(synapseId: string, userProfile: Profile, teamToRoleArnMap: seq<RosterEntry>,
                        isMember: (string, string) -> bool)
    returns (tags: seq<Tag>)
    ensures tags == ProfileTags(userProfile, SynapseUserProfileIncludes)
                    + TeamTags(FirstMember(synapseId, RosterTeamIds(teamToRoleArnMap), isMember))
  {
    var synapseUserTags := GetSynapseUserProfileTags(userProfile, SynapseUserProfileIncludes);
    var synapseTeamIds := GetSynapseTeamIds(teamToRoleArnMap);
    assert synapseTeamIds == RosterTeamIds(teamToRoleArnMap);
    var synapseTeamTags := GetSynapseUserTeamTags(synapseId, synapseTeamIds, isMember);
    tags := synapseUserTags + synapseTeamTags;
  }

  // ---------------------------------------------------------------------------
  // Marketplace
  // ---------------------------------------------------------------------------

  /**
   * `get_marketplace_tags`: `productCode` is the parameter-store value and
   * `customerId` the DynamoDB lookup (None when the user has no registration).
   */
  method GetMarketplaceTags(productCode: string, customerId: Option<string>) returns (tags: seq<Tag>)
    ensures |tags| == (if productCode != "" then 1 else 0) + (if customerId.Some? && customerId.value != "" then 1 else 0)
    ensures forall t :: t in tags ==>
              t.key == MarketplaceTagPrefix + ":productCode" || t.key == MarketplaceTagPrefix + ":customerId"
    ensures Tag(MarketplaceTagPrefix + ":productCode", productCode) in tags <==> productCode != ""
    ensures (exists t :: t in tags && t.key == MarketplaceTagPrefix + ":customerId")
            <==> customerId.Some? && customerId.value != ""
    ensures forall t :: t in tags && t.key == MarketplaceTagPrefix + ":customerId" ==> t == Tag(t.key, customerId.value)
    ensures forall t :: t in tags && t.key == MarketplaceTagPrefix + ":productCode" ==> t == tags[0] && t.value == productCode
  {
    tags := [];
    if productCode != "" {
      tags := tags + [Tag(MarketplaceTagPrefix + ":productCode", productCode)];
    }
    if customerId.Some? && customerId.value != "" {
      tags := tags + [Tag(MarketplaceTagPrefix + ":customerId", customerId.value)];
    }
  }
}

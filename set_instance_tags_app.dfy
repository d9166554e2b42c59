/**
 * The instance-tagging custom resource (`set_instance_tags/app.py`): the
 * instance id from the event, the non-empty check on the EC2 tag response, the
 * principal id read off the tags, and the Synapse tags derived from the user's
 * profile (through a deny-list, values unchanged) and first member team.
 */
module SetInstanceTagsApp {
  import opened TagModel

  const MissingInstanceIdErrorMessage: string := "InstanceId parameter is required"
  const NoPrincipalErrorMessage: string := "Could not derive a provisioningPrincipalArn from tags"

  /** The default `ignore_keys` of `get_synapse_user_profile_tags`. */
  const DefaultIgnoreKeys: seq<string> := ["createdOn"]

  /** The lifecycle event, reduced to its `ResourceProperties` mapping. */
  datatype Event = Event(resourceProperties: map<string, string>)

  /** The EC2 `describe_tags` response, reduced to its optional `Tags` list. */
  datatype DescribeTagsResponse = DescribeTagsResponse(tags: Option<seq<Tag>>)

  // ---------------------------------------------------------------------------
  // Event and instance tags
  // ---------------------------------------------------------------------------

  /** `get_instance_id`: a missing or empty `InstanceId` is rejected. */
  function GetInstanceId(event: Event): (r: Result<string>)
    ensures r.Failure? <==>
              "InstanceId" !in event.resourceProperties || event.resourceProperties["InstanceId"] == ""
    ensures r.Failure? ==> r.error == ValueError(MissingInstanceIdErrorMessage)
    ensures r.Success? ==> r.value != "" && r.value == event.resourceProperties["InstanceId"]
  {
    var resourceProperties := event.resourceProperties;
    var instanceId := if "InstanceId" in resourceProperties then resourceProperties["InstanceId"] else "";
    if instanceId == "" then Failure(ValueError(MissingInstanceIdErrorMessage))
    else Success(instanceId)
  }

  /** `get_instance_tags` on a given response: an absent or empty `Tags` list is rejected. */
  function GetInstanceTags(response: DescribeTagsResponse): (r: Result<seq<Tag>>)
    ensures r.Failure? <==> response.tags.None? || response.tags.value == []
    ensures r.Failure? ==> r.error == NoTagsError
    ensures r.Success? ==> |r.value| > 0 && response.tags == Some(r.value)
  {
    var tags := response.tags;
    if tags.None? || |tags.value| == 0 then Failure(NoTagsError)
    else Success(tags.value)
  }

  /** `get_principal_id`: the last '/' segment of the first principal-ARN tag. */
  function GetPrincipalId(tags: seq<Tag>): (r: Result<string>)
    ensures r.Failure? <==> !HasKey(tags, PrincipalArnKey)
    ensures r.Failure? ==> r.error == ValueError(NoPrincipalErrorMessage)
    ensures r.Success? ==>
              exists i: nat :: IsFirstWithKey(tags, PrincipalArnKey, i) && IsLastSegment(tags[i].value, r.value)
    ensures r.Success? ==>
              exists i: nat :: IsFirstWithKey(tags, PrincipalArnKey, i) && ('/' !in tags[i].value ==> r.value == tags[i].value)
  {
    match FindTag(tags, PrincipalArnKey)
    case None => Failure(ValueError(NoPrincipalErrorMessage))
    case Some(i) => Success(LastSegment(tags[i].value))
  }

  /**
   * `get_instance_tags` followed by `get_principal_id`, as `create_or_update`
   * chains them: the first failure propagates, the tag error taking precedence.
   */
  function PrincipalOfInstanceTags(response: DescribeTagsResponse): (r: Result<string>)
    ensures r.Failure? <==> response.tags.None? || !HasKey(response.tags.value, PrincipalArnKey)
    ensures r.Failure? ==>
              r.error == (if response.tags.None? || response.tags.value == [] then NoTagsError
                          else ValueError(NoPrincipalErrorMessage))
    ensures r.Success? ==>
              response.tags.Some? &&
              exists i: nat :: IsFirstWithKey(response.tags.value, PrincipalArnKey, i)
                && IsLastSegment(response.tags.value[i].value, r.value)
  {
    match GetInstanceTags(response)
    case Failure(e) => Failure(e)
    case Success(tags) => GetPrincipalId(tags)
  }

  // ---------------------------------------------------------------------------
  // User-profile tags (deny-list)
  // ---------------------------------------------------------------------------

  /** The tags one profile entry contributes. */
  function FieldTags(f: Field, ignoreKeys: seq<string>): seq<Tag>
  {
    if f.name in ignoreKeys then []
    else
      (if f.name == UserNameField
       then [Tag(SynapseKey("email"), SynapseEmail(f.value)), Tag(OwnerEmailKey, SynapseEmail(f.value))]
       else [])
      + [Tag(SynapseKey(f.name), f.value)]
  }

  /** What `get_synapse_user_profile_tags` returns: the entries' tags in profile order. */
  function ProfileTags(profile: Profile, ignoreKeys: seq<string>): seq<Tag>
  {
    if |profile| == 0 then []
    else ProfileTags(profile[..|profile| - 1], ignoreKeys) + FieldTags(profile[|profile| - 1], ignoreKeys)
  }

  /** `get_synapse_user_profile_tags`. */
  method GetSynapseUserProfileTags(userProfile: Profile, ignoreKeys: seq<string>) returns (tags: seq<Tag>)
    ensures tags == ProfileTags(userProfile, ignoreKeys)
  {
    tags := [];
    var i := 0;
    while i < |userProfile|
      invariant 0 <= i <= |userProfile|
      invariant tags == ProfileTags(userProfile[..i], ignoreKeys)
    {
      assert userProfile[..i + 1][..i] == userProfile[..i];
      var key, value := userProfile[i].name, userProfile[i].value;
      if key in ignoreKeys {
        i := i + 1;
        continue;
      }
      if key == UserNameField {
        var synapseEmail := SynapseEmail(value);
        tags := tags + [Tag(SynapseKey("email"), synapseEmail)];
        tags := tags + [Tag(OwnerEmailKey, synapseEmail)];
      }
      var tag := Tag(SynapseKey(key), value);
      tags := tags + [tag];
      i := i + 1;
    }
    assert userProfile[..i] == userProfile;
  }

  /** Profile tags distribute over splitting the profile. */
  lemma {:induction false} ProfileTagsConcat(a: Profile, b: Profile, ignoreKeys: seq<string>)
    ensures ProfileTags(a + b, ignoreKeys) == ProfileTags(a, ignoreKeys) + ProfileTags(b, ignoreKeys)
    decreases |b|
  {
    if |b| == 0 {
      assert a + b == a;
    } else {
      var b' := b[..|b| - 1];
      var last := b[|b| - 1];
      ProfileTagsConcat(a, b', ignoreKeys);
      assert (a + b)[..|a + b| - 1] == a + b';
      assert (a + b)[|a + b| - 1] == last;
      calc {
        ProfileTags(a + b, ignoreKeys);
        ProfileTags(a + b', ignoreKeys) + FieldTags(last, ignoreKeys);
        ProfileTags(a, ignoreKeys) + ProfileTags(b', ignoreKeys) + FieldTags(last, ignoreKeys);
        ProfileTags(a, ignoreKeys) + (ProfileTags(b', ignoreKeys) + FieldTags(last, ignoreKeys));
        ProfileTags(a, ignoreKeys) + ProfileTags(b, ignoreKeys);
      }
    }
  }

  /** An ignored key contributes nothing. */
  lemma ProfileTagsSkipIgnored(a: Profile, f: Field, b: Profile, ignoreKeys: seq<string>)
    requires f.name in ignoreKeys
    ensures ProfileTags(a + [f] + b, ignoreKeys) == ProfileTags(a + b, ignoreKeys)
  {
    assert ProfileTags([f], ignoreKeys) == [] by {
      assert ProfileTags([f], ignoreKeys) == ProfileTags([], ignoreKeys) + FieldTags(f, ignoreKeys);
    }
    calc {
      ProfileTags(a + [f] + b, ignoreKeys);
      { ProfileTagsConcat(a + [f], b, ignoreKeys); }
      ProfileTags(a + [f], ignoreKeys) + ProfileTags(b, ignoreKeys);
      { ProfileTagsConcat(a, [f], ignoreKeys); }
      ProfileTags(a, ignoreKeys) + ProfileTags(b, ignoreKeys);
      { ProfileTagsConcat(a, b, ignoreKeys); }
      ProfileTags(a + b, ignoreKeys);
    }
  }

  /** A kept key other than `userName` contributes exactly its `synapse:<key>` tag, value unchanged, in place. */
  lemma ProfileTagsKeepOther(a: Profile, f: Field, b: Profile, ignoreKeys: seq<string>)
    requires f.name !in ignoreKeys && f.name != UserNameField
    ensures ProfileTags(a + [f] + b, ignoreKeys)
            == ProfileTags(a, ignoreKeys) + [Tag(SynapseKey(f.name), f.value)] + ProfileTags(b, ignoreKeys)
  {
    ProfileTagsConcat(a + [f], b, ignoreKeys);
    ProfileTagsConcat(a, [f], ignoreKeys);
    assert ProfileTags([f], ignoreKeys) == ProfileTags([], ignoreKeys) + FieldTags(f, ignoreKeys);
  }

  /** A kept `userName` contributes the two email tags directly before its own tag. */
  lemma ProfileTagsUserName(a: Profile, f: Field, b: Profile, ignoreKeys: seq<string>)
    requires f.name == UserNameField && UserNameField !in ignoreKeys
    ensures ProfileTags(a + [f] + b, ignoreKeys)
            == ProfileTags(a, ignoreKeys)
               + [Tag(SynapseKey("email"), f.value + "@synapse.org"),
                  Tag("OwnerEmail", f.value + "@synapse.org"),
                  Tag(SynapseKey("userName"), f.value)]
               + ProfileTags(b, ignoreKeys)
  {
    ProfileTagsConcat(a + [f], b, ignoreKeys);
    ProfileTagsConcat(a, [f], ignoreKeys);
    assert ProfileTags([f], ignoreKeys) == ProfileTags([], ignoreKeys) + FieldTags(f, ignoreKeys);
  }

  /** Number of profile entries whose key is not ignored. */
  function KeptCount(p: Profile, ignoreKeys: seq<string>): nat
  {
    if |p| == 0 then 0
    else KeptCount(p[..|p| - 1], ignoreKeys) + (if p[|p| - 1].name in ignoreKeys then 0 else 1)
  }

  /** One tag per kept entry plus two email tags per kept `userName` entry. */
  lemma {:induction false} ProfileTagsLength(p: Profile, ignoreKeys: seq<string>)
    ensures |ProfileTags(p, ignoreKeys)|
            == KeptCount(p, ignoreKeys) + (if UserNameField !in ignoreKeys then 2 * NameCount(p, UserNameField) else 0)
  {
    if |p| > 0 {
      ProfileTagsLength(p[..|p| - 1], ignoreKeys);
    }
  }

  /** For a profile (distinct keys): the kept entries plus 2 when `userName` is kept and present. */
  lemma ProfileTagsLengthOfDistinct(p: Profile, ignoreKeys: seq<string>)
    requires DistinctNames(p)
    ensures |ProfileTags(p, ignoreKeys)|
            == KeptCount(p, ignoreKeys) + (if UserNameField !in ignoreKeys && HasField(p, UserNameField) then 2 else 0)
  {
    ProfileTagsLength(p, ignoreKeys);
    NameCountOfDistinct(p, UserNameField);
  }

  /** Every emitted key comes from a kept entry, or is an email key owed to a kept `userName`. */
  lemma {:induction false} ProfileTagsKeys(p: Profile, ignoreKeys: seq<string>)
    ensures forall t :: t in ProfileTags(p, ignoreKeys) ==>
              (exists f :: f in p && f.name !in ignoreKeys && t == Tag(SynapseKey(f.name), f.value))
              || ((t.key == SynapseKey("email") || t.key == OwnerEmailKey)
                  && UserNameField !in ignoreKeys && HasField(p, UserNameField))
  {
    if |p| > 0 {
      var init := p[..|p| - 1];
      var last := p[|p| - 1];
      ProfileTagsKeys(init, ignoreKeys);
      forall t | t in ProfileTags(p, ignoreKeys)
        ensures (exists f :: f in p && f.name !in ignoreKeys && t == Tag(SynapseKey(f.name), f.value))
                || ((t.key == SynapseKey("email") || t.key == OwnerEmailKey)
                    && UserNameField !in ignoreKeys && HasField(p, UserNameField))
      {
        if t in ProfileTags(init, ignoreKeys) {
          if exists f :: f in init && f.name !in ignoreKeys && t == Tag(SynapseKey(f.name), f.value) {
            var f :| f in init && f.name !in ignoreKeys && t == Tag(SynapseKey(f.name), f.value);
            assert f in p;
          } else {
            var i :| 0 <= i < |init| && init[i].name == UserNameField;
            assert p[i].name == UserNameField;
          }
        } else {
          assert t in FieldTags(last, ignoreKeys);
          assert last in p;
          if last.name == UserNameField {
            assert p[|p| - 1].name == UserNameField;
          }
        }
      }
    }
  }

  /** An ignored `userName` suppresses the email tags: no `OwnerEmail`, and `synapse:email` only from a kept `email` entry. */
  lemma NoEmailTagsWhenUserNameIgnored(p: Profile, ignoreKeys: seq<string>)
    requires UserNameField in ignoreKeys
    ensures forall t :: t in ProfileTags(p, ignoreKeys) ==> t.key != OwnerEmailKey
    ensures forall t :: t in ProfileTags(p, ignoreKeys) && t.key == SynapseKey("email") ==> "email" !in ignoreKeys
  {
    ProfileTagsKeys(p, ignoreKeys);
    forall t | t in ProfileTags(p, ignoreKeys)
      ensures t.key != OwnerEmailKey && (t.key == SynapseKey("email") ==> "email" !in ignoreKeys)
    {
      var f :| f in p && f.name !in ignoreKeys && t == Tag(SynapseKey(f.name), f.value);
      OwnerEmailNotSynapseKey(f.name);
      SynapseKeyInjective(f.name, "email");
    }
  }

  /** With the default ignore list, `userName` and `createdOn` give the email, owner and user-name tags only. */
  lemma DefaultIgnoreExample(userName: string, createdOn: string)
    ensures ProfileTags([Field("userName", userName), Field("createdOn", createdOn)], DefaultIgnoreKeys)
            == [Tag("synapse:email", userName + "@synapse.org"),
                Tag("OwnerEmail", userName + "@synapse.org"),
                Tag("synapse:userName", userName)]
  {
    var p := [Field("userName", userName), Field("createdOn", createdOn)];
    assert p[..1] == [Field("userName", userName)];
    assert p[..1][..0] == [];
    assert "createdOn" in DefaultIgnoreKeys && "userName" !in DefaultIgnoreKeys;
    assert SynapseKey("email") == "synapse:email";
    assert SynapseKey("userName") == "synapse:userName";
    assert FieldTags(p[1], DefaultIgnoreKeys) == [];
    assert ProfileTags(p, DefaultIgnoreKeys) == ProfileTags(p[..1], DefaultIgnoreKeys);
    assert ProfileTags(p[..1], DefaultIgnoreKeys) == FieldTags(p[0], DefaultIgnoreKeys);
  }

  // ---------------------------------------------------------------------------
  // Teams
  // ---------------------------------------------------------------------------

  /** `get_synapse_team_ids`, from the decoded roster on: the `teamId` of each entry. */
  method GetSynapseTeamIds(teamToRoleArnMap: seq<RosterEntry>) returns (teamIds: seq<string>)
    ensures |teamIds| == |teamToRoleArnMap|
    ensures forall i :: 0 <= i < |teamToRoleArnMap| ==> teamIds[i] == teamToRoleArnMap[i].teamId
  {
    teamIds := [];
    var i := 0;
    while i < |teamToRoleArnMap|
      invariant 0 <= i <= |teamToRoleArnMap|
      invariant |teamIds| == i
      invariant forall j :: 0 <= j < i ==> teamIds[j] == teamToRoleArnMap[j].teamId
    {
      teamIds := teamIds + [teamToRoleArnMap[i].teamId];
      i := i + 1;
    }
  }

  /**
   * `get_synapse_user_team_id`: the first team in `teamIds` that the user is a
   * member of. `isMember` stands for the membership-status query; `queried`
   * records the teams asked about, in order.
   */
  method GetSynapseUserTeamId(synapseId: string, teamIds: seq<string>, isMember: (string, string) -> bool)
    returns (teamId: Option<string>, ghost queried: seq<string>)
    ensures teamId == FirstMember(synapseId, teamIds, isMember)
    ensures teamId.Some? ==> exists k: nat :: IsFirstMemberAt(synapseId, teamIds, isMember, k) && teamIds[k] == teamId.value
    ensures teamId.None? <==> forall j :: 0 <= j < |teamIds| ==> !isMember(synapseId, teamIds[j])
    ensures teamId.None? ==> queried == teamIds
    ensures teamId.Some? ==>
              0 < |queried| <= |teamIds| && queried == teamIds[..|queried|]
              && IsFirstMemberAt(synapseId, teamIds, isMember, |queried| - 1) && queried[|queried| - 1] == teamId.value
  {
    queried := [];
    var i := 0;
    while i < |teamIds|
      invariant 0 <= i <= |teamIds|
      invariant queried == teamIds[..i]
      invariant forall j :: 0 <= j < i ==> !isMember(synapseId, teamIds[j])
    {
      queried := queried + [teamIds[i]];
      if isMember(synapseId, teamIds[i]) {
        assert IsFirstMemberAt(synapseId, teamIds, isMember, i);
        FirstMemberIsFirst(synapseId, teamIds, isMember);
        return Some(teamIds[i]), queried;
      }
      i := i + 1;
    }
    FirstMemberIsFirst(synapseId, teamIds, isMember);
    return None, queried;
  }

  /** `get_synapse_user_team_tags`: at most one `synapse:teamId` tag, for a team the user is in. */
  method GetSynapseUserTeamTags(synapseId: string, synapseTeamIds: seq<string>, isMember: (string, string) -> bool)
    returns (tags: seq<Tag>)
    ensures tags == TeamTags(FirstMember(synapseId, synapseTeamIds, isMember))
    ensures |tags| <= 1
    ensures forall t :: t in tags ==>
              t.key == SynapseKey("teamId") && t.value in synapseTeamIds && isMember(synapseId, t.value)
    ensures tags != [] <==>
              exists k: nat :: IsFirstMemberAt(synapseId, synapseTeamIds, isMember, k) && synapseTeamIds[k] != ""
  {
    FirstMemberIsFirst(synapseId, synapseTeamIds, isMember);
    if k: nat :| IsFirstMemberAt(synapseId, synapseTeamIds, isMember, k) && synapseTeamIds[k] != "" {
      FirstMemberAt(synapseId, synapseTeamIds, isMember, k);
    }
    tags := [];
    var userTeamId, _ := GetSynapseUserTeamId(synapseId, synapseTeamIds, isMember);
    if userTeamId.Some? && userTeamId.value != "" {
      tags := tags + [Tag(SynapseKey("teamId"), userTeamId.value)];
    }
  }

  /**
   * `get_synapse_tags`: profile tags (default ignore list) followed by team tags.
   * The profile and the roster stand for the Synapse and parameter-store lookups.
   */
  method GetSynapseTags(synapseId: string, userProfile: Profile, teamToRoleArnMap: seq<RosterEntry>,
                        isMember: (string, string) -> bool)
    returns (tags: seq<Tag>)
    ensures tags == ProfileTags(userProfile, DefaultIgnoreKeys)
                    + TeamTags(FirstMember(synapseId, RosterTeamIds(teamToRoleArnMap), isMember))
  {
    var synapseUserTags := GetSynapseUserProfileTags(userProfile, DefaultIgnoreKeys);
    var synapseTeamIds := GetSynapseTeamIds(teamToRoleArnMap);
    assert synapseTeamIds == RosterTeamIds(teamToRoleArnMap);
    var synapseTeamTags := GetSynapseUserTeamTags(synapseId, synapseTeamIds, isMember);
    tags := synapseUserTags + synapseTeamTags;
  }

  /** A user `bob` in the only roster team `t1` gets the email, owner, user-name and team tags. */
  lemma EndToEndExample(isMember: (string, string) -> bool)
    requires isMember("bob", "t1")
    ensures ProfileTags([Field("userName", "bob")], DefaultIgnoreKeys)
            + TeamTags(FirstMember("bob", RosterTeamIds([RosterEntry("t1", "arn:role")]), isMember))
            == [Tag("synapse:email", "bob@synapse.org"),
                Tag("OwnerEmail", "bob@synapse.org"),
                Tag("synapse:userName", "bob"),
                Tag("synapse:teamId", "t1")]
  {
    assert RosterTeamIds([RosterEntry("t1", "arn:role")]) == ["t1"];
    FirstMemberAt("bob", ["t1"], isMember, 0);
    assert [Field("userName", "bob")][..0] == [];
    assert "userName" !in DefaultIgnoreKeys;
    assert SynapseKey("email") == "synapse:email";
    assert SynapseKey("userName") == "synapse:userName";
    assert SynapseKey("teamId") == "synapse:teamId";
    assert SynapseEmail("bob") == "bob@synapse.org";
  }
}

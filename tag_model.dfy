/**
 * Shared vocabulary of the Synapse tagger: tags, Synapse user-profile fields,
 * team-roster entries, the errors the handlers raise, and the string and
 * search helpers that both handlers use (`str.split('/')`, "first element
 * that satisfies a test").
 */
module TagModel {

  datatype Option<T> = None | Some(value: T)

  /** The exceptions the handlers raise. */
  datatype Error =
    | ValueError(message: string)   // ValueError with a fixed message
    | MissingTagError(key: string)  // ValueError(f'Expected to find {key} in {tags}')
    | NoTagsError                   // Exception(f'No tags returned, received: {response}')

  datatype Result<T> = Success(value: T) | Failure(error: Error)

  /** A resource tag: `{'Key': key, 'Value': value}`. */
  datatype Tag = Tag(key: string, value: string)

  /** One entry of a Synapse user profile (a Python dict, kept in insertion order). */
  datatype Field = Field(name: string, value: string)
  type Profile = seq<Field>

  /** One decoded entry of the team-to-role-ARN roster held in the parameter store. */
  datatype RosterEntry = RosterEntry(teamId: string, roleArn: string)

  const SynapseTagPrefix: string := "synapse"
  const PrincipalArnKey: string := "aws:servicecatalog:provisioningPrincipalArn"
  const OwnerEmailKey: string := "OwnerEmail"
  const UserNameField: string := "userName"
  const EmailDomain: string := "@synapse.org"

  /** `f'{SYNAPSE_TAG_PREFIX}:{name}'` */
  function SynapseKey(name: string): (k: string)
    ensures |k| == |SynapseTagPrefix| + 1 + |name|
    ensures k[..|SynapseTagPrefix| + 1] == SynapseTagPrefix + ":"
    ensures k[|SynapseTagPrefix| + 1..] == name
  {
    SynapseTagPrefix + ":" + name
  }

  /** Two Synapse keys are equal exactly when their names are. */
  lemma SynapseKeyInjective(a: string, b: string)
    ensures SynapseKey(a) == SynapseKey(b) <==> a == b
  {
    if SynapseKey(a) == SynapseKey(b) {
      assert a == SynapseKey(a)[|SynapseTagPrefix| + 1..];
    }
  }

  /** The legacy `OwnerEmail` key is never a Synapse-prefixed key. */
  lemma OwnerEmailNotSynapseKey(name: string)
    ensures SynapseKey(name) != OwnerEmailKey
  {
    assert SynapseKey(name)[0] == 's';
  }

  /** `f'{user_name}@synapse.org'` */
  function SynapseEmail(userName: string): (e: string)
    ensures |e| == |userName| + |EmailDomain|
    ensures e[..|userName|] == userName && e[|userName|..] == EmailDomain
  {
    userName + EmailDomain
  }

  // ---------------------------------------------------------------------------
  // str.split(sep) and its inverse, sep.join(parts)
  // ---------------------------------------------------------------------------

  /** Python's `s.split(sep)` for a one-character separator. */
  function Split(s: string, sep: char): (parts: seq<string>)
    ensures |parts| >= 1
    ensures forall i :: 0 <= i < |parts| ==> sep !in parts[i]
    decreases |s|
  {
    if |s| == 0 then [""]
    else
      var rest := Split(s[1..], sep);
      if s[0] == sep then [""] + rest
      else [[s[0]] + rest[0]] + rest[1..]
  }

  /** Python's `sep.join(parts)`. */
  function Join(parts: seq<string>, sep: char): string
    requires |parts| >= 1
  {
    if |parts| == 1 then parts[0] else parts[0] + [sep] + Join(parts[1..], sep)
  }

  /** Joining the pieces of a split gives back the original string. */
  lemma {:induction false} JoinSplit(s: string, sep: char)
    ensures Join(Split(s, sep), sep) == s
    decreases |s|
  {
    if |s| > 0 {
      var rest := Split(s[1..], sep);
      JoinSplit(s[1..], sep);
      if s[0] == sep {
        assert Split(s, sep) == [""] + rest;
        assert ([""] + rest)[1..] == rest;
        assert s == [sep] + s[1..];
      } else {
        var parts := [[s[0]] + rest[0]] + rest[1..];
        assert Split(s, sep) == parts;
        if |rest| == 1 {
          assert s == [s[0]] + s[1..];
        } else {
          assert parts[1..] == rest[1..];
          assert Join(rest, sep) == rest[0] + [sep] + Join(rest[1..], sep);
          assert s == [s[0]] + s[1..];
        }
      }
    }
  }

  /** Splitting a string that starts with a piece free of the separator. */
  lemma {:induction false} SplitPrefix(a: string, b: string, sep: char)
    requires sep !in a
    ensures Split(a + b, sep) == [a + Split(b, sep)[0]] + Split(b, sep)[1..]
    decreases |a|
  {
    if |a| > 0 {
      SplitPrefix(a[1..], b, sep);
      assert (a + b)[1..] == a[1..] + b;
      assert (a + b)[0] == a[0];
      assert [a[0]] + (a[1..] + Split(b, sep)[0]) == a + Split(b, sep)[0];
    } else {
      var parts := Split(b, sep);
      assert a + b == b;
      assert a + parts[0] == parts[0];
      assert [parts[0]] + parts[1..] == parts;
    }
  }

  /** Splitting a join of separator-free pieces gives back the pieces. */
  lemma {:induction false} SplitJoin(parts: seq<string>, sep: char)
    requires |parts| >= 1
    requires forall i :: 0 <= i < |parts| ==> sep !in parts[i]
    ensures Split(Join(parts, sep), sep) == parts
    decreases |parts|
  {
    if |parts| == 1 {
      SplitPrefix(parts[0], "", sep);
      assert parts[0] + "" == parts[0];
      assert Split("", sep) == [""];
    } else {
      var tail := Join(parts[1..], sep);
      SplitJoin(parts[1..], sep);
      var b := [sep] + tail;
      assert b[1..] == tail;
      assert Split(b, sep) == [""] + parts[1..];
      assert parts[0] + [sep] + tail == parts[0] + b;
      SplitPrefix(parts[0], b, sep);
      assert parts[0] + "" == parts[0];
    }
  }

  /** A join of two or more pieces ends with the separator and the last piece. */
  lemma {:induction false} JoinLast(parts: seq<string>, sep: char)
    requires |parts| >= 2
    ensures Join(parts, sep) == Join(parts[..|parts| - 1], sep) + [sep] + parts[|parts| - 1]
    decreases |parts|
  {
    if |parts| > 2 {
      JoinLast(parts[1..], sep);
      assert parts[1..][..|parts| - 2] == parts[..|parts| - 1][1..];
    }
  }

  /** The string has a separator exactly when its split has two or more pieces. */
  lemma SplitHasTwoPieces(s: string, sep: char)
    ensures sep in s <==> |Split(s, sep)| >= 2
  {
    var parts := Split(s, sep);
    JoinSplit(s, sep);
    if |parts| >= 2 {
      JoinLast(parts, sep);
      var pre := Join(parts[..|parts| - 1], sep);
      assert s[|pre|] == sep;
    }
  }

  /** `t` is what follows the last separator of `s` (all of `s` when there is none). */
  ghost predicate IsLastSegment(s: string, t: string)
  {
    && '/' !in t
    && |t| <= |s|
    && s[|s| - |t|..] == t
    && (|t| < |s| ==> s[|s| - |t| - 1] == '/')
  }

  /** `s.split('/')[-1]`. */
  function LastSegment(s: string): (t: string)
    ensures IsLastSegment(s, t)
    ensures '/' !in s ==> t == s
  {
    var parts := Split(s, '/');
    JoinSplit(s, '/');
    if |parts| >= 2 then
      JoinLast(parts, '/');
      var pre := Join(parts[..|parts| - 1], '/');
      assert s == pre + ['/'] + parts[|parts| - 1];
      assert s[|pre|] == '/';
      parts[|parts| - 1]
    else
      parts[0]
  }

  /** The pieces of `s` before its last piece, joined again, are `s` up to its last '/'. */
  lemma {:induction false} PrefixBeforeLastSegment(s: string)
    requires '/' in s
    ensures |Split(s, '/')| >= 2
    ensures |LastSegment(s)| < |s|
    ensures s[..|s| - |LastSegment(s)| - 1] == Join(Split(s, '/')[..|Split(s, '/')| - 1], '/')
  {
    var parts := Split(s, '/');
    SplitHasTwoPieces(s, '/');
    JoinSplit(s, '/');
    JoinLast(parts, '/');
    var pre := Join(parts[..|parts| - 1], '/');
    assert s == pre + ['/'] + parts[|parts| - 1];
    assert LastSegment(s) == parts[|parts| - 1];
  }

  /** `s.split('/')[-2]`; Python raises IndexError when `s` has no '/'. */
  function SecondToLastSegment(s: string): (t: string)
    requires '/' in s
    ensures IsLastSegment(s[..|s| - |LastSegment(s)| - 1], t)
  {
    var parts := Split(s, '/');
    PrefixBeforeLastSegment(s);
    var init := parts[..|parts| - 1];
    SplitJoin(init, '/');
    assert LastSegment(Join(init, '/')) == init[|init| - 1];
    parts[|parts| - 2]
  }

  // ---------------------------------------------------------------------------
  // First-match searches
  // ---------------------------------------------------------------------------

  /** Index of the first element of `s` that satisfies `p`, if any. */
  function FirstIndex<T>(s: seq<T>, p: T -> bool): (r: Option<nat>)
    ensures r.Some? ==> r.value < |s| && p(s[r.value])
    ensures r.Some? ==> forall j :: 0 <= j < r.value ==> !p(s[j])
    ensures r.None? <==> forall j :: 0 <= j < |s| ==> !p(s[j])
  {
    if |s| == 0 then None
    else if p(s[0]) then Some(0)
    else
      match FirstIndex(s[1..], p)
      case None => None
      case Some(i) => Some(i + 1)
  }

  /** `i` is the position of the first tag keyed `key`. */
  ghost predicate IsFirstWithKey(tags: seq<Tag>, key: string, i: nat)
  {
    i < |tags| && tags[i].key == key && forall j :: 0 <= j < i ==> tags[j].key != key
  }

  ghost predicate HasKey(tags: seq<Tag>, key: string)
  {
    exists i :: 0 <= i < |tags| && tags[i].key == key
  }

  /** The for-loop over tags looking for `tag.get('Key') == key`. */
  function FindTag(tags: seq<Tag>, key: string): (r: Option<nat>)
    ensures r.Some? ==> IsFirstWithKey(tags, key, r.value)
    ensures r.None? <==> !HasKey(tags, key)
  {
    FirstIndex(tags, (t: Tag) => t.key == key)
  }

  /** What the first-match loop over the team ids returns: the first team the user is in. */
  function FirstMember(synapseId: string, teamIds: seq<string>, isMember: (string, string) -> bool)
    : (r: Option<string>)
  {
    match FirstIndex(teamIds, (id: string) => isMember(synapseId, id))
    case None => None
    case Some(k) => Some(teamIds[k])
  }

  /** `FirstMember` finds the earliest member team, and nothing when there is none. */
  lemma FirstMemberIsFirst(synapseId: string, teamIds: seq<string>, isMember: (string, string) -> bool)
    ensures FirstMember(synapseId, teamIds, isMember).None? <==>
              forall j :: 0 <= j < |teamIds| ==> !isMember(synapseId, teamIds[j])
    ensures FirstMember(synapseId, teamIds, isMember).Some? ==>
              exists k :: 0 <= k < |teamIds| && IsFirstMemberAt(synapseId, teamIds, isMember, k)
                       && teamIds[k] == FirstMember(synapseId, teamIds, isMember).value
  {
    var r := FirstIndex(teamIds, (id: string) => isMember(synapseId, id));
    if r.Some? {
      assert IsFirstMemberAt(synapseId, teamIds, isMember, r.value);
    }
  }

  /** The first member team is unique. */
  lemma FirstMemberAt(synapseId: string, teamIds: seq<string>, isMember: (string, string) -> bool, k: nat)
    requires IsFirstMemberAt(synapseId, teamIds, isMember, k)
    ensures FirstMember(synapseId, teamIds, isMember) == Some(teamIds[k])
  {
    var r := FirstIndex(teamIds, (id: string) => isMember(synapseId, id));
    assert r.Some?;
  }

  ghost predicate IsFirstMemberAt(synapseId: string, teamIds: seq<string>, isMember: (string, string) -> bool, k: nat)
  {
    k < |teamIds| && isMember(synapseId, teamIds[k])
    && forall j :: 0 <= j < k ==> !isMember(synapseId, teamIds[j])
  }

  /** The `teamId` of every roster entry, in roster order. */
  function RosterTeamIds(roster: seq<RosterEntry>): (ids: seq<string>)
    ensures |ids| == |roster|
    ensures forall i :: 0 <= i < |roster| ==> ids[i] == roster[i].teamId
  {
    seq(|roster|, i requires 0 <= i < |roster| => roster[i].teamId)
  }

  /** The team tags: one `synapse:teamId` tag when the resolved id is truthy, none otherwise. */
  function TeamTags(userTeamId: Option<string>): (tags: seq<Tag>)
    ensures |tags| <= 1
    ensures tags != [] <==> userTeamId.Some? && userTeamId.value != ""
    ensures forall t :: t in tags ==> t.key == SynapseKey("teamId") && Some(t.value) == userTeamId
  {
    if userTeamId.Some? && userTeamId.value != "" then [Tag(SynapseKey("teamId"), userTeamId.value)] else []
  }

  // ---------------------------------------------------------------------------
  // Profile fields
  // ---------------------------------------------------------------------------

  /** Dict keys are distinct. */
  ghost predicate DistinctNames(p: Profile)
  {
    forall i, j :: 0 <= i < j < |p| ==> p[i].name != p[j].name
  }

  ghost predicate HasField(p: Profile, name: string)
  {
    exists i :: 0 <= i < |p| && p[i].name == name
  }

  /** How many fields of `p` are called `name`. */
  function NameCount(p: Profile, name: string): nat
  {
    if |p| == 0 then 0
    else NameCount(p[..|p| - 1], name) + (if p[|p| - 1].name == name then 1 else 0)
  }

  /** In a profile with distinct keys a name occurs once if present and never otherwise. */
  lemma {:induction false} NameCountOfDistinct(p: Profile, name: string)
    requires DistinctNames(p)
    ensures NameCount(p, name) == if HasField(p, name) then 1 else 0
  {
    if |p| > 0 {
      var init := p[..|p| - 1];
      assert DistinctNames(init);
      NameCountOfDistinct(init, name);
      if p[|p| - 1].name == name {
        assert !HasField(init, name);
        assert HasField(p, name);
      } else if HasField(p, name) {
        var i :| 0 <= i < |p| && p[i].name == name;
        assert init[i].name == name;
      }
    }
  }
}

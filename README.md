# Synapse tagger: tag derivation

A Dafny model of the tag-derivation logic of a CloudFormation custom resource
that tags AWS resources provisioned through Service Catalog with data about
the Synapse user who provisioned them. Two handlers carry their own copies of
the helpers, and each copy is modelled separately:

- `set_tags/utils.py` (module `SetTagsUtils`) derives:
  - the Synapse owner id from the `aws:servicecatalog:provisioningPrincipalArn` tag;
  - a `Name` tag from the provisioned-product ARN;
  - the `Protected/AccessApprovedCaller` tag;
  - user-profile tags, through an allow-list of profile keys, with values sanitised to the characters AWS tag values accept;
  - the `synapse:teamId` tag of the user's first member team;
  - the `marketplace:*` tags.
- `set_instance_tags/app.py` (module `SetInstanceTagsApp`) covers:
  - reading the `InstanceId` from the lifecycle event;
  - rejecting an EC2 tag response without tags;
  - the principal id;
  - user-profile tags through a deny-list (default `createdOn`), with values unchanged;
  - the same team resolution.

Shared definitions live in module `TagModel`: tags, profiles, roster entries
and errors; Python's `str.split('/')` and `'/'.join` with their round trips;
the last and second-to-last `/` segments; the first-match search over a list;
and the team-tag rule.

How the model is built:

- A Python dict profile is a sequence of `Field`s in insertion order.
- The list-building loops and the first-member search are `method`s, proved against specification functions:
  - the profile-tag loops against `ProfileTags`, a recursive function over the profile;
  - the first-member loops against `FirstMember`, which reads the result of the recursive search `FirstIndex`;
  - the team-tag methods, which have no loop, against `TeamTags`, a conditional expression.
- `GetSynapseTeamIds` and `GetMarketplaceTags` state their results directly in their ensures. `GetSynapseTags` shows that the team ids it collects are `RosterTeamIds` of the roster, a sequence comprehension.
- Lemmas state what those functions guarantee: how the profile tags split along the profile, where the email tags sit, which keys can appear, how many tags there are, and that every value is sanitised.
- The `for`/`else` searches over the tags (`GetSynapseOwnerId`, `GetPrincipalId`, `GetProvisionedProductNameTag`, `GetAccessApprovedRoleTag`) are functions over `FindTag`.
- External lookups are inputs of the model:
  - the Synapse profile and the team roster are parameters;
  - the membership-status query is a function `isMember(userId, teamId)`;
  - the IAM role-id lookup is a function `roleIdOf(roleName)`;
  - the marketplace product code and customer id are parameters.

Error behaviour, as the code has it:

- `ValueError` for a missing `InstanceId` and for a missing principal tag (`set_instance_tags/app.py:33`, `:60`), and a plain `Exception` for an empty tag response (`:46`).
- `set_instance_tags/app.py` passes profile values through unchanged.
- `set_tags/utils.py` selects profile keys with an allow-list and sanitises the values (`:109-114`).

## Model

| member | source | states |
|---|---|---|
| TagModel.SynapseKey | set_tags/utils.py:122 | `synapse:<name>` is the prefix, a colon, then exactly the name |
| TagModel.SynapseKeyInjective | set_tags/utils.py:119-122 | two `synapse:` keys are equal iff their field names are |
| TagModel.OwnerEmailNotSynapseKey | set_tags/utils.py:120-122 | the legacy `OwnerEmail` key never collides with a `synapse:<name>` key |
| TagModel.SynapseEmail | set_tags/utils.py:118 | the email is the user name followed by exactly `@synapse.org` |
| TagModel.Split | set_tags/utils.py:48 | `split('/')` yields at least one piece and no piece contains the separator |
| TagModel.JoinSplit | set_tags/utils.py:48 | joining the pieces of a split with the separator gives back the string |
| TagModel.SplitJoin | set_tags/utils.py:48 | splitting a join of separator-free pieces gives back the pieces (inverse direction) |
| TagModel.JoinLast | set_tags/utils.py:48 | a join of two or more pieces ends with the separator and the last piece |
| TagModel.SplitPrefix | set_tags/utils.py:48 | a separator-free prefix is glued onto the first piece of the split of the rest |
| TagModel.SplitHasTwoPieces | set_tags/utils.py:160 | a string has a `/` iff its split has two or more pieces, so `[-2]` exists exactly then |
| TagModel.LastSegment | set_tags/utils.py:48 | `split('/')[-1]` is the longest `/`-free suffix: it has no `/`, it ends the string, it is preceded by `/` unless it is the whole string, and it is the whole string when there is no `/` |
| TagModel.PrefixBeforeLastSegment | set_tags/utils.py:181-182 | the string before its last `/` is the join of all pieces but the last |
| TagModel.SecondToLastSegment | set_tags/utils.py:160 | `split('/')[-2]` is the last segment of the string before its last `/` |
| TagModel.FirstIndex | set_tags/utils.py:45-46 | the returned index is the first element passing the test; none is returned iff no element passes |
| TagModel.FindTag | set_tags/utils.py:45-51 | the returned position is that of the first tag with the key; none iff no tag has it |
| TagModel.FirstMemberIsFirst | set_tags/utils.py:87-94 | the first-match loop result is None iff the user is in no listed team, otherwise the earliest member team |
| TagModel.FirstMemberAt | set_tags/utils.py:87-94 | the earliest member team is unique: it is what the loop returns |
| TagModel.RosterTeamIds | set_tags/utils.py:73-75 | one id per roster entry, in roster order, each its entry's `teamId` |
| TagModel.TeamTags | set_tags/utils.py:132-133 | at most one tag; a tag exists iff the resolved team id is present and non-empty (truthy); any tag is keyed `synapse:teamId` and carries that id |
| TagModel.NameCountOfDistinct | set_instance_tags/app.py:117 | in a dict (distinct keys) a key occurs once if present and never otherwise |
| SetTagsUtils.GetSynapseOwnerId | set_tags/utils.py:39-51 | `ValueError` iff no tag has the principal-ARN key; otherwise the last `/` segment of the FIRST such tag, `/`-free, the whole value when it has no `/` |
| SetTagsUtils.GetProvisionedProductNameTag | set_tags/utils.py:149-168 | `ValueError` iff no provisioned-product-ARN tag; otherwise a `Name` tag whose value is the second-to-last `/` segment of the first such tag |
| SetTagsUtils.GetAccessApprovedRoleTag | set_tags/utils.py:170-195 | `ValueError` iff no principal-ARN tag; otherwise `Protected/AccessApprovedCaller` = `<role id of the second-to-last segment>:<last segment>`, and the owner id then exists too |
| SetTagsUtils.LastSegmentUnique | set_tags/utils.py:181-182 | only one string is the last `/` segment of a value |
| SetTagsUtils.Sanitize | set_tags/utils.py:106-114 | sanitising keeps the length, leaves valid tag characters in place, replaces every other character with a space, and yields only valid characters or spaces |
| SetTagsUtils.SanitizeFixpoint | set_tags/utils.py:106-114 | a value is unchanged by sanitising iff it already holds only valid characters or spaces |
| SetTagsUtils.SanitizeIdempotent | set_tags/utils.py:114 | sanitising twice equals sanitising once |
| SetTagsUtils.SynapseEmailSanitized | set_tags/utils.py:117-118 | the email built from a sanitised user name is itself sanitised |
| SetTagsUtils.GetSynapseUserProfileTags | set_tags/utils.py:96-126 | the append loop yields exactly the per-entry tags of the profile, in profile order |
| SetTagsUtils.ProfileTagsConcat | set_tags/utils.py:108-123 | the tags of a split profile are the tags of its two parts, concatenated |
| SetTagsUtils.ProfileTagsSkipExcluded | set_tags/utils.py:109-111 | a key not in `includes` produces no tags |
| SetTagsUtils.ProfileTagsKeepIncluded | set_tags/utils.py:113-123 | an included key other than `userName` yields exactly one `synapse:<key>` tag with the sanitised value, at its place in profile order |
| SetTagsUtils.ProfileTagsUserName | set_tags/utils.py:116-123 | an included `userName` yields `synapse:email` and `OwnerEmail` = `<sanitised userName>@synapse.org` directly before `synapse:userName` |
| SetTagsUtils.ProfileTagsSanitized | set_tags/utils.py:102-123 | every emitted value holds only characters of `[a-zA-Z0-9.+=_:@/-]` or spaces |
| SetTagsUtils.ProfileTagsLength | set_tags/utils.py:108-123 | tag count = included entries + 2 per included `userName` entry |
| SetTagsUtils.ProfileTagsLengthOfDistinct | set_tags/utils.py:108-123 | for a dict profile: tag count = included entries, plus 2 when `userName` is included and present |
| SetTagsUtils.ProfileTagsKeys | set_tags/utils.py:108-123 | every emitted key is `synapse:<key>` of an included entry, or an email key owed to an included, present `userName` |
| SetTagsUtils.NoEmailTagsWithoutUserName | set_tags/utils.py:99-120 | with `userName` not included there is no `OwnerEmail` tag, and `synapse:email` can only come from an included `email` entry |
| SetTagsUtils.GetSynapseTeamIds | set_tags/utils.py:73-78 | the ids have the roster's length and the i-th is the i-th entry's `teamId` |
| SetTagsUtils.GetSynapseUserTeamId | set_tags/utils.py:80-94 | returns the first member team, or None iff the user is in none; the teams queried are exactly the prefix that ends at the earliest member team (all of them when none matches) |
| SetTagsUtils.GetSynapseUserTeamTags | set_tags/utils.py:128-136 | at most one tag, keyed `synapse:teamId`, for a listed team the user is in; a tag exists iff the first member team has a non-empty (truthy) id |
| SetTagsUtils.GetSynapseTags | set_tags/utils.py:138-147 | the profile tags under the default allow-list followed by the team tags of the roster |
| SetTagsUtils.GetMarketplaceTags | set_tags/utils.py:229-248 | one tag per non-empty input, so 0 to 2 tags; `marketplace:productCode` iff the code is non-empty, and it comes first; `marketplace:customerId` iff the id is present and non-empty; each tag carries its input as value |
| SetInstanceTagsApp.GetInstanceId | set_instance_tags/app.py:10-34 | `ValueError('InstanceId parameter is required')` iff `InstanceId` is absent or empty; otherwise the value unchanged |
| SetInstanceTagsApp.GetInstanceTags | set_instance_tags/app.py:44-48 | fails iff the response's `Tags` is absent or empty; any returned list is non-empty and is the response's list |
| SetInstanceTagsApp.GetPrincipalId | set_instance_tags/app.py:51-60 | `ValueError('Could not derive a provisioningPrincipalArn from tags')` iff no principal-ARN tag; otherwise the last `/` segment of the first one |
| SetInstanceTagsApp.PrincipalOfInstanceTags | set_instance_tags/app.py:162-164 | `get_instance_tags` then `get_principal_id` on one response: fails iff `Tags` is absent or holds no principal-ARN tag, with the tag error when `Tags` is absent or empty and the principal `ValueError` otherwise; on success the last `/` segment of the first principal-ARN tag of the response |
| SetInstanceTagsApp.GetSynapseUserProfileTags | set_instance_tags/app.py:109-131 | the append loop yields exactly the per-entry tags of the profile, in profile order |
| SetInstanceTagsApp.ProfileTagsConcat | set_instance_tags/app.py:116-128 | the tags of a split profile are the tags of its two parts, concatenated |
| SetInstanceTagsApp.ProfileTagsSkipIgnored | set_instance_tags/app.py:117-119 | a key in `ignore_keys` produces no tags |
| SetInstanceTagsApp.ProfileTagsKeepOther | set_instance_tags/app.py:127-128 | a kept key other than `userName` yields exactly one `synapse:<key>` tag with the value unchanged, in profile order |
| SetInstanceTagsApp.ProfileTagsUserName | set_instance_tags/app.py:121-128 | a kept `userName` yields `synapse:email` and `OwnerEmail` = `<userName>@synapse.org` directly before `synapse:userName` |
| SetInstanceTagsApp.ProfileTagsLength | set_instance_tags/app.py:116-128 | tag count = kept entries + 2 per kept `userName` entry |
| SetInstanceTagsApp.ProfileTagsLengthOfDistinct | set_instance_tags/app.py:116-128 | for a dict profile: tag count = kept entries, plus 2 when `userName` is kept and present |
| SetInstanceTagsApp.ProfileTagsKeys | set_instance_tags/app.py:116-128 | every emitted tag is `synapse:<key>` = value of a kept entry, or an email tag owed to a kept, present `userName` |
| SetInstanceTagsApp.NoEmailTagsWhenUserNameIgnored | set_instance_tags/app.py:113-125 | an ignored `userName` gives no `OwnerEmail` tag, and `synapse:email` only from a kept `email` entry |
| SetInstanceTagsApp.DefaultIgnoreExample | set_instance_tags/app.py:109-128 | `{userName, createdOn}` under the default ignore list gives exactly the email, `OwnerEmail` and `synapse:userName` tags |
| SetInstanceTagsApp.GetSynapseTeamIds | set_instance_tags/app.py:85-90 | the ids have the roster's length and the i-th is the i-th entry's `teamId` |
| SetInstanceTagsApp.GetSynapseUserTeamId | set_instance_tags/app.py:93-107 | returns the first member team, or None iff the user is in none; the teams queried are exactly the prefix that ends at the earliest member team, so querying stops at the first match |
| SetInstanceTagsApp.GetSynapseUserTeamTags | set_instance_tags/app.py:134-142 | at most one `synapse:teamId` tag, for a listed member team; a tag exists iff the first member team's id is truthy |
| SetInstanceTagsApp.GetSynapseTags | set_instance_tags/app.py:144-153 | the profile tags under the default ignore list followed by the team tags of the roster |
| SetInstanceTagsApp.EndToEndExample | set_instance_tags/app.py:144-153 | user `bob` in roster team `t1` gets the email, `OwnerEmail`, `synapse:userName` and `synapse:teamId` tags, in that order |

## Left out

- AWS and Synapse calls are not modelled; their results are parameters or oracle functions, and their failures (which the code propagates unchanged) are not modelled. The calls are EC2 `describe_tags` and `create_tags`, SSM `get_parameter`, IAM `get_role`, DynamoDB `get_item`, `getUserProfile` and `get_membership_status`.
- `json.loads` of the roster parameter is not modelled; the roster is an already-decoded sequence of `{teamId, roleArn}` entries, so a malformed roster or a missing `teamId` key is not represented.
- `get_marketplace_customer_id` (the DynamoDB response decoding) is not modelled; its result is the `customerId` parameter of `GetMarketplaceTags`.
- `os.getenv`, the synapseclient cache-directory assignment and logging have no logical content and are left out.
- The `crhelper` dispatch, `create_or_update`, `delete` (a no-op) and `handler` are not modelled; they only call the helpers in sequence.
- `re.sub` is not modelled as a regular-expression engine. `Sanitize` replaces each character outside the allowed set with a space, character by character, which is what the pattern `[^a-zA-Z0-9.+=_:@/\-]` does.
- Profile values, tag values and team ids are strings. `app.py` passes non-string profile values (lists, numbers) through unchanged, and `f'{value}@synapse.org'` would format them; neither is represented. In `utils.py` a non-string value makes `re.sub` raise `TypeError`, which is not represented either.
- GetSynapseOwnerId, GetPrincipalId: utils' error message embeds `repr(tags)`, which is modelled only as the key being looked for (`MissingTagError`); a tag whose `Value` is `None` (an `AttributeError` in the code) cannot occur, because tags carry string values.
- GetProvisionedProductNameTag, GetAccessApprovedRoleTag: the `IndexError` raised by `split('/')[-2]` when the matching value has no `/` is excluded by a precondition instead of being modelled as an error.
- GetInstanceId: an event without `ResourceProperties` (an `AttributeError` in the code) cannot occur, because the event always carries the mapping; and a non-string falsy `InstanceId` (e.g. `0`) is not represented.
- GetInstanceTags: the exception message embeds `repr(response)`, which is modelled only as `NoTagsError`.

# Club member records and their flattening

This project models the part of the GeoGuessr club exporter that turns one club
membership entry into one flat export row: the `ClubMember` record in
`club_api.py`. A member is built from a membership entry, a JSON object holding a
nested `user` object plus membership-level fields. It keeps the membership fields,
the user fields and the user's id. It is updated once with the member's stats and
once with the member's peak rating, where a failed fetch arrives as `None`. It is
then flattened into a single-level record whose keys are dotted paths such as
`user.nick` or `stats.verified.distance`.

Files:

- `json.dfy` (module `JsonValues`): the JSON value type. An object is a sequence of
  (key, value) pairs in insertion order, the way a Python dict keeps them. Also
  holds `Option` and `Result`.
- `dicts.dfy` (module `Dicts`): Python dict semantics on such sequences. `AsMap`
  is the mapping a sequence denotes when a later pair overrides an earlier one.
  `Get` is `dict.get(k, default)`. `Put` is `d[k] = v`: an existing key keeps its
  place, a new key goes last. `FromItems` is `dict(items)`, and `{**a, **b}` too.
- `flattening.dfy` (module `Flattening`): what `flatten_dict` computes. `Flatten`
  (with `ItemsUpTo`, the items list after the loop's first n entries) follows
  the source, flattening each nested object into a dict of its own before
  splicing it in. `Leaves` is an independent reference: the depth-first list of
  (path, leaf) pairs with no deduplication. The lemmas relate the two.
- `club_member.dfy` (module `ClubMembers`): the constructor's split of an entry,
  `x or {}`, `Record` (the four-section record of `to_dict`), and the class `ClubMember`.
  Its two mutable fields `stats` and `peakRating` are overwritten by the update
  methods, and its static method `FlattenDict` is the loop of `flatten_dict`,
  proved equal to `Flatten`, as its `ToDict` is proved equal to `Record`.

## Model

| member | source | states |
|---|---|---|
| `Dicts.Get` | club_api.py:54-55 | `d.get(k, default)`: the value the dict maps k to when k is present, otherwise the default |
| `Dicts.Put` | club_api.py:89 | `d[k] = v`: the key set gains k; a key not yet present is appended at the end, after every existing pair; every pair comes from d or is (k, v) |
| `Dicts.PutAsMap` | club_api.py:89 | on a dict with distinct keys, `d[k] = v` maps k to v and leaves every other key's value unchanged |
| `Dicts.FromItems` | club_api.py:89 | `dict(items)` denotes the same later-pair-wins mapping as the items |
| `Dicts.FromItemsDistinctKeys` | club_api.py:89 | `dict(items)` has distinct keys |
| `Dicts.FromItemsPairs` | club_api.py:89 | every pair of `dict(items)` is one of the items |
| `Dicts.FromItemsDistinct` | club_api.py:77 | `dict(items)` of pairs whose keys are already distinct is those pairs unchanged, in the same order (used for the `{**a, **b, **c, **d}` merge) |
| `Dicts.AsMapLast` | club_api.py:89 | a pair that no later pair overrides gives its key's value in the dict built from the sequence |
| `Flattening.Join` | club_api.py:83 | the new key is `parent + sep + k` (so it starts with `parent + sep` and then has exactly k) when parent is non-empty, and k itself when parent is empty |
| `Flattening.ItemsShape` | club_api.py:81-88 | every pair the loop has collected holds a non-object value, and under a non-empty parent every key starts with `parent + sep` |
| `Flattening.FlattenShape` | club_api.py:80-89 | the flattened dict has distinct keys, no value is an object, and under a non-empty parent every key starts with `parent + sep` |
| `Flattening.FlattenMatchesLeaves` | club_api.py:82-89 | as a mapping, the flattened dict equals the depth-first list of (dotted path, leaf) pairs with later pairs winning, and the two have the same key set |
| `Flattening.LaterVisitWins` | club_api.py:85-89 | when several leaves reach the same dotted path, the value kept is that of the leaf visited last |
| `Flattening.FlattenFlat` | club_api.py:82-88 | an object with distinct keys and no nested object flattens to exactly `{P + sep + k: v}` for each pair, in the same order; with an empty prefix it comes back unchanged |
| `Flattening.EmptyObjectVanishes` | club_api.py:84-86 | an entry whose value is an empty object contributes nothing: the result is the same as with that entry removed |
| `Flattening.LeafEntryKept` | club_api.py:83-88 | an entry with a non-object value (string, number, boolean, null or a whole array) appears under its joined path, which is the bare key under an empty parent; unless a later entry reaches the same path, its value is kept as it is |
| `ClubMembers.MembershipPart` | club_api.py:53 | the membership part maps exactly the entry's keys other than `"user"` to the same values, has distinct keys when the entry does, and holds only pairs of the entry |
| `ClubMembers.UserPart` | club_api.py:54-55 | the user part is `{}` when the entry has no `"user"`, is that object when `"user"` maps to an object, and is the AttributeError otherwise |
| `ClubMembers.OrEmpty` | club_api.py:63-67 | `x or {}` stores a non-empty object as it is and stores `{}` for `None` or `{}` |
| `ClubMembers.RecordSections` | club_api.py:69-77 | the merged record is the four flattened sections one after the other; its size is the sum of theirs; every key starts with `user.`, `membership.`, `stats.` or `peakRating.` |
| `ClubMembers.MergeDisjoint` | club_api.py:77 | four dicts with distinct keys and pairwise disjoint key sets merge with `{**a, **b, **c, **d}` into their concatenation, nothing overridden |
| `ClubMembers.SectionsExclusive` | club_api.py:70-75 | no key starts with two of the four section prefixes, so the sections cannot collide |
| `ClubMembers.RecordWithoutStats` | club_api.py:63-77 | after both updates received `None`, the record is the user and membership sections alone and has no `stats.` or `peakRating.` key |
| `ClubMembers.RecordWithoutPeakRating` | club_api.py:63-77 | with stats present and the peak rating `None`, the record is the user, membership and stats sections one after the other |
| `ClubMembers.WorkedRecord` | club_api.py:63-89 | a member `{"userId": u, "nick": n}` with role r, whose stats are `{"verified": {"distance": x}}` and whose peak rating is `None`, exports exactly `{"user.userId": u, "user.nick": n, "membership.role": r, "stats.verified.distance": x}`, in that order, for every u, n, r and x |
| `ClubMembers.ExampleEntrySplit` | club_api.py:52-54 | the entry `{"user": {"userId": "u1", "nick": "Alice"}, "role": "admin"}` splits into that user object and `{"role": "admin"}` |
| `ClubMembers.ClubMember.constructor` | club_api.py:52-57 | the membership part, the user part and the user id (`""` when absent) are stored, and stats and peak rating start empty |
| `ClubMembers.ClubMember.Nick` | club_api.py:59-61 | the user's `nick` when present, the empty string otherwise; it has no precondition |
| `ClubMembers.ClubMember.UpdateStats` | club_api.py:63-64 | stats becomes `x or {}` and the peak rating is unchanged |
| `ClubMembers.ClubMember.UpdatePeakRating` | club_api.py:66-67 | the peak rating becomes `x or {}` and stats is unchanged |
| `ClubMembers.ClubMember.ToDict` | club_api.py:69-77 | the result is `Record`, the functional model of `to_dict`: the four sections flattened under `user`, `membership`, `stats` and `peakRating` and merged in that order |
| `ClubMembers.ClubMember.FlattenDict` | club_api.py:79-89 | the loop, with its recursive calls on nested objects, keeps its items equal to `ItemsUpTo` of the entries visited so far and returns exactly `Flatten(d, parentKey, sep)`, the functional model of `flatten_dict` |

## Left out

- `GeoGuessrClubAPI` (club_api.py:11-48): HTTP session, cookie and headers, status handling and JSON decoding are network I/O. The token check at lines 15-19 reads the environment. The stats and peak-rating results reach the model only as the `Option` argument of the update methods.
- `export_members_to_csv` (club_api.py:92-95): the column union and CSV writing happen inside pandas, followed by file I/O and printing.
- The `__main__` sequence (club_api.py:98-121): network calls, the 0.2 s sleep and progress printing. The per-member part (lines 112-116) is just the two modelled update calls.
- ClubMembers.ClubMember.constructor: requires that Python's constructor does not raise, i.e. that `"user"` is absent or an object. The raise itself (AttributeError from `.get` on a non-dict) is modelled by `UserPart` returning `Err`.
- ClubMembers.ClubMember.UpdateStats: the argument is an optional object, following the `Optional[dict]` annotations. A successful response whose JSON body is not an object is not modelled. Python would store a truthy one and `to_dict` would then raise.
- ClubMembers.ClubMember.UpdatePeakRating: the same gap as for `UpdateStats`. The argument is an optional object, and a response body that is not an object is not modelled.
- JSON numbers are integers; floating-point values are not modelled. Flattening never inspects a number.
- The Python object identity of `raw_user`: it is the same dict as the entry's `"user"` value. The model holds values and does not capture this aliasing.

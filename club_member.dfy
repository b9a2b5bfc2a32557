/**
 * One club member: the membership entry split into its membership fields and its
 * user fields, the two tolerant updates, and the flattening of all four sections
 * into one single-level record.
 */
module ClubMembers {
  import opened JsonValues
  import opened Dicts
  import opened Flattening

  /** Python's AttributeError: `.get` called on a "user" value that is not a dict. */
  datatype Error = UserNotAnObject(found: Json)

  /** Map identities used when a key is filtered out. */
  lemma RemoveBelow(k: string, v: Json, m: map<string, Json>, x: string)
    requires k != x
    ensures map[k := v] + (m - {x}) == (map[k := v] + m) - {x}
  {
  }

  lemma RemoveSame(v: Json, m: map<string, Json>, x: string)
    ensures m - {x} == (map[x := v] + m) - {x}
  {
  }

  /** `{k: v for k, v in data.items() if k != "user"}`. */
  function MembershipPart(data: Items): (r: Items)
    ensures AsMap(r) == AsMap(data) - {"user"}
    ensures DistinctKeys(data) ==> DistinctKeys(r)
    ensures forall p | p in r :: p in data && p.0 != "user"
  {
    if data == [] then []
    else
      var rest := MembershipPart(data[1..]);
      var head := data[0];
      assert AsMap(data) == map[head.0 := head.1] + AsMap(data[1..]);
      DistinctCons(data);
      if head.0 != "user" then
        var r := [head] + rest;
        assert r[1..] == rest && r[0] == head;
        assert DistinctKeys(data) ==> head.0 !in KeysOf(rest) by {
          AsMapKeys(rest);
          AsMapKeys(data[1..]);
        }
        DistinctCons(r);
        assert AsMap(r) == map[head.0 := head.1] + AsMap(rest);
        RemoveBelow(head.0, head.1, AsMap(data[1..]), "user");
        r
      else
        RemoveSame(head.1, AsMap(data[1..]), "user");
        rest
  }

  /** `data.get("user", {})`, and the AttributeError the later `.get` raises when that value is not a dict. */
  function UserPart(data: Items): (r: Result<Items, Error>)
    ensures "user" !in AsMap(data) ==> r == Ok([])
    ensures "user" in AsMap(data) ==> (r.Ok? <==> AsMap(data)["user"].JObj?)
    ensures "user" in AsMap(data) && r.Ok? ==> JObj(r.value) == AsMap(data)["user"]
  {
    match Get(data, "user", JObj([]))
    case JObj(fields) => Ok(fields)
    case other => Err(UserNotAnObject(other))
  }

  /** `x or {}` for an optional object: None and the empty dict are both false in Python. */
  function OrEmpty(x: Option<Items>): (r: Items)
    ensures x.Some? && x.value != [] ==> r == x.value
    ensures x.None? || x.value == [] ==> r == []
  {
    if x.Some? then x.value else []
  }

  /** The four section names of `to_dict`, in merge order. */
  const UserSection := "user"
  const MembershipSection := "membership"
  const StatsSection := "stats"
  const PeakRatingSection := "peakRating"

  /** `to_dict`: each section flattened under its own name, merged with `{**user, **membership, **stats, **rating}`. */
  function Record(user: Items, membership: Items, stats: Items, peakRating: Items): Items {
    FromItems(Flatten(user, UserSection, ".") + Flatten(membership, MembershipSection, ".")
      + Flatten(stats, StatsSection, ".") + Flatten(peakRating, PeakRatingSection, "."))
  }

  /** The key lies under section name: it starts with `name + "."`. */
  predicate InSection(key: string, name: string) {
    name + "." <= key
  }

  /** No key lies under two of the four sections. */
  lemma SectionsExclusive(key: string)
    ensures !(InSection(key, UserSection) && InSection(key, MembershipSection))
    ensures !(InSection(key, UserSection) && InSection(key, StatsSection))
    ensures !(InSection(key, UserSection) && InSection(key, PeakRatingSection))
    ensures !(InSection(key, MembershipSection) && InSection(key, StatsSection))
    ensures !(InSection(key, MembershipSection) && InSection(key, PeakRatingSection))
    ensures !(InSection(key, StatsSection) && InSection(key, PeakRatingSection))
  {
    if |key| > 0 {
      assert InSection(key, UserSection) ==> key[0] == 'u';
      assert InSection(key, MembershipSection) ==> key[0] == 'm';
      assert InSection(key, StatsSection) ==> key[0] == 's';
      assert InSection(key, PeakRatingSection) ==> key[0] == 'p';
    }
  }

  lemma SectionKeysDisjoint(a: Items, na: string, b: Items, nb: string)
    requires forall p | p in a :: InSection(p.0, na)
    requires forall p | p in b :: InSection(p.0, nb)
    requires forall key :: !(InSection(key, na) && InSection(key, nb))
    ensures KeysOf(a) !! KeysOf(b)
  {
    forall i, j | 0 <= i < |a| && 0 <= j < |b| ensures a[i].0 != b[j].0 {
      assert a[i] in a && b[j] in b;
    }
  }

  /** A section flattened under its non-empty name is a dict whose every key lies under that name. */
  lemma SectionShape(d: Items, name: string)
    requires name != ""
    ensures DistinctKeys(Flatten(d, name, "."))
    ensures forall q | q in Flatten(d, name, ".") :: InSection(q.0, name)
  {
    FlattenShape(d, name, ".");
  }

  /** Four dicts with pairwise disjoint keys merge into their concatenation. */
  lemma MergeDisjoint(u: Items, m: Items, s: Items, p: Items)
    requires DistinctKeys(u) && DistinctKeys(m) && DistinctKeys(s) && DistinctKeys(p)
    requires KeysOf(u) !! KeysOf(m) && KeysOf(u) !! KeysOf(s) && KeysOf(u) !! KeysOf(p)
    requires KeysOf(m) !! KeysOf(s) && KeysOf(m) !! KeysOf(p) && KeysOf(s) !! KeysOf(p)
    ensures FromItems(u + m + s + p) == u + m + s + p
  {
    KeysConcat(u, m);
    KeysConcat(u + m, s);
    ConcatDistinct(u, m);
    ConcatDistinct(u + m, s);
    ConcatDistinct(u + m + s, p);
    FromItemsDistinct(u + m + s + p);
  }

  /**
   * The four flattened sections are disjoint, so the merge loses nothing: the
   * record is the four sections one after the other, its size is the sum of
   * theirs, and every key lies under exactly one section.
   */
  lemma RecordSections(user: Items, membership: Items, stats: Items, peakRating: Items)
    ensures var u, m, s, p := Flatten(user, UserSection, "."), Flatten(membership, MembershipSection, "."),
                              Flatten(stats, StatsSection, "."), Flatten(peakRating, PeakRatingSection, ".");
            Record(user, membership, stats, peakRating) == u + m + s + p
            && |Record(user, membership, stats, peakRating)| == |u| + |m| + |s| + |p|
    ensures forall q | q in Record(user, membership, stats, peakRating) ::
              InSection(q.0, UserSection) || InSection(q.0, MembershipSection)
              || InSection(q.0, StatsSection) || InSection(q.0, PeakRatingSection)
  {
    var u, m, s, p := Flatten(user, UserSection, "."), Flatten(membership, MembershipSection, "."),
                      Flatten(stats, StatsSection, "."), Flatten(peakRating, PeakRatingSection, ".");
    SectionShape(user, UserSection);
    SectionShape(membership, MembershipSection);
    SectionShape(stats, StatsSection);
    SectionShape(peakRating, PeakRatingSection);
    assert FromItems(u + m + s + p) == u + m + s + p by {
      forall key ensures !(InSection(key, UserSection) && InSection(key, MembershipSection))
        && !(InSection(key, UserSection) && InSection(key, StatsSection))
        && !(InSection(key, UserSection) && InSection(key, PeakRatingSection))
        && !(InSection(key, MembershipSection) && InSection(key, StatsSection))
        && !(InSection(key, MembershipSection) && InSection(key, PeakRatingSection))
        && !(InSection(key, StatsSection) && InSection(key, PeakRatingSection))
      {
        SectionsExclusive(key);
      }
      SectionKeysDisjoint(u, UserSection, m, MembershipSection);
      SectionKeysDisjoint(u, UserSection, s, StatsSection);
      SectionKeysDisjoint(u, UserSection, p, PeakRatingSection);
      SectionKeysDisjoint(m, MembershipSection, s, StatsSection);
      SectionKeysDisjoint(m, MembershipSection, p, PeakRatingSection);
      SectionKeysDisjoint(s, StatsSection, p, PeakRatingSection);
      MergeDisjoint(u, m, s, p);
    }
    forall q: (string, Json) | q in u + m + s + p
      ensures InSection(q.0, UserSection) || InSection(q.0, MembershipSection)
              || InSection(q.0, StatsSection) || InSection(q.0, PeakRatingSection)
    {
      assert q in u || q in m || q in s || q in p;
    }
  }

  /** A member whose stats and peak rating both came back as None has no `stats.` or `peakRating.` key. */
  lemma RecordWithoutStats(user: Items, membership: Items)
    ensures Record(user, membership, OrEmpty(None), OrEmpty(None))
         == Flatten(user, UserSection, ".") + Flatten(membership, MembershipSection, ".")
    ensures forall q | q in Record(user, membership, OrEmpty(None), OrEmpty(None)) ::
              !InSection(q.0, StatsSection) && !InSection(q.0, PeakRatingSection)
  {
    var u, m := Flatten(user, UserSection, "."), Flatten(membership, MembershipSection, ".");
    assert Record(user, membership, [], []) == u + m by {
      RecordSections(user, membership, [], []);
      FlattenEmpty(StatsSection, ".");
      FlattenEmpty(PeakRatingSection, ".");
      assert u + m + [] + [] == u + m;
    }
    SectionShape(user, UserSection);
    SectionShape(membership, MembershipSection);
    forall q: (string, Json) | q in u + m ensures !InSection(q.0, StatsSection) && !InSection(q.0, PeakRatingSection) {
      assert q in u || q in m;
      SectionsExclusive(q.0);
    }
  }

  /** The entry of one member splits into its user object and its one membership field. */
  lemma ExampleEntrySplit()
    ensures UserPart([("user", JObj([("userId", JStr("u1")), ("nick", JStr("Alice"))])), ("role", JStr("admin"))])
         == Ok([("userId", JStr("u1")), ("nick", JStr("Alice"))])
    ensures MembershipPart([("user", JObj([("userId", JStr("u1")), ("nick", JStr("Alice"))])), ("role", JStr("admin"))])
         == [("role", JStr("admin"))]
  {
    var entry := [("user", JObj([("userId", JStr("u1")), ("nick", JStr("Alice"))])), ("role", JStr("admin"))];
    AsMapLast(entry, 0);
    assert entry[1..] == [("role", JStr("admin"))];
  }

  /** With stats present and no peak rating, the record is the user, membership and stats sections in order. */
  lemma RecordWithoutPeakRating(user: Items, membership: Items, stats: Items, u: Items, m: Items, s: Items)
    requires Flatten(user, UserSection, ".") == u && Flatten(membership, MembershipSection, ".") == m
    requires Flatten(stats, StatsSection, ".") == s
    ensures Record(user, membership, OrEmpty(Some(stats)), OrEmpty(None)) == u + m + s
  {
    RecordSections(user, membership, stats, []);
    FlattenEmpty(PeakRatingSection, ".");
    assert u + m + s + [] == u + m + s;
  }

  /** The dotted paths of the worked record, one lemma per section. */
  lemma WorkedUserPaths()
    ensures Join(UserSection, "userId", ".") == "user.userId"
    ensures Join(UserSection, "nick", ".") == "user.nick"
  {
  }

  lemma WorkedMembershipPath()
    ensures Join(MembershipSection, "role", ".") == "membership.role"
  {
  }

  lemma WorkedStatsPaths()
    ensures Join(StatsSection, "verified", ".") == "stats.verified"
    ensures Join("stats.verified", "distance", ".") == "stats.verified.distance"
  {
  }

  /**
   * The worked record: a member with a user id, a nick and a role, whose stats hold
   * one nested object `{"verified": {"distance": ...}}` and whose peak rating came
   * back as None.
   */
  lemma WorkedRecord(userId: string, nick: string, role: string, distance: int)
    ensures Record([("userId", JStr(userId)), ("nick", JStr(nick))], [("role", JStr(role))],
                   OrEmpty(Some([("verified", JObj([("distance", JNum(distance))]))])), OrEmpty(None))
         == [("user.userId", JStr(userId)), ("user.nick", JStr(nick)), ("membership.role", JStr(role)),
             ("stats.verified.distance", JNum(distance))]
  {
    var u, m := [("user.userId", JStr(userId)), ("user.nick", JStr(nick))], [("membership.role", JStr(role))];
    var s := [("stats.verified.distance", JNum(distance))];
    assert u + m + s == [("user.userId", JStr(userId)), ("user.nick", JStr(nick)), ("membership.role", JStr(role)),
                         ("stats.verified.distance", JNum(distance))];
    WorkedUserPaths();
    WorkedMembershipPath();
    WorkedStatsPaths();
    FlattenTwo("userId", JStr(userId), "nick", JStr(nick), UserSection, ".");
    FlattenOne("role", JStr(role), MembershipSection, ".");
    FlattenNestedOne("verified", [("distance", JNum(distance))], StatsSection, ".");
    FlattenOne("distance", JNum(distance), "stats.verified", ".");
    RecordWithoutPeakRating([("userId", JStr(userId)), ("nick", JStr(nick))], [("role", JStr(role))],
                            [("verified", JObj([("distance", JNum(distance))]))], u, m, s);
  }

  class ClubMember {
    const rawMembership: Items
    const rawUser: Items
    const userId: Json
    var stats: Items
    var peakRating: Items

    /** `ClubMember(data)`; callable when Python's constructor does not raise. */
    constructor (data: Items)
      requires UserPart(data).Ok?
      ensures rawMembership == MembershipPart(data)
      ensures rawUser == UserPart(data).value
      ensures "userId" in AsMap(rawUser) ==> userId == AsMap(rawUser)["userId"]
      ensures "userId" !in AsMap(rawUser) ==> userId == JStr("")
      ensures stats == [] && peakRating == []
    {
      rawMembership := MembershipPart(data);
      rawUser := UserPart(data).value;
      userId := Get(UserPart(data).value, "userId", JStr(""));
      stats := [];
      peakRating := [];
    }

    /** The user's `nick`, or the empty string when there is none. */
    function Nick(): (r: Json)
      ensures "nick" in AsMap(rawUser) ==> r == AsMap(rawUser)["nick"]
      ensures "nick" !in AsMap(rawUser) ==> r == JStr("")
    {
      Get(rawUser, "nick", JStr(""))
    }

    /** `update_stats(x)`: a None or empty argument is stored as the empty object. */
    method UpdateStats(x: Option<Items>)
      modifies this`stats
      ensures stats == OrEmpty(x)
      ensures peakRating == old(peakRating)
    {
      stats := OrEmpty(x);
    }

    /** `update_peak_rating(x)`, with the same normalisation. */
    method UpdatePeakRating(x: Option<Items>)
      modifies this`peakRating
      ensures peakRating == OrEmpty(x)
      ensures stats == old(stats)
    {
      peakRating := OrEmpty(x);
    }

    /** `to_dict`: see RecordSections for what the record holds. */
    method ToDict() returns (r: Items)
      ensures r == Record(rawUser, rawMembership, stats, peakRating)
    {
      var baseUser := FlattenDict(rawUser, UserSection, ".");
      var baseMembership := FlattenDict(rawMembership, MembershipSection, ".");
      var flatStats := FlattenDict(stats, StatsSection, ".");
      var flatRating := FlattenDict(peakRating, PeakRatingSection, ".");
      r := FromItems(baseUser + baseMembership + flatStats + flatRating);
    }

    /** `flatten_dict`: one pass over the entries, recursing into nested objects. */
    static method FlattenDict(d: Items, parentKey: string, sep: string) returns (r: Items)
      decreases JObj(d)
      ensures r == Flatten(d, parentKey, sep)
    {
      var items: Items := [];
      for i := 0 to |d|
        invariant items == ItemsUpTo(d, parentKey, sep, i)
      {
        var (k, v) := d[i];
        var newKey := if parentKey != "" then parentKey + sep + k else k;
        if v.JObj? {
          assert d[i] in d;
          var sub := FlattenDict(v.fields, newKey, sep);
          items := items + sub;
        } else {
          items := items + [(newKey, v)];
        }
      }
      r := FromItems(items);
    }
  }
}

/**
 * The members tab of app.js: the snapshot fetched by `loadMembers` and the
 * `member-search` input handler, which filters that snapshot by a
 * case-insensitive substring match on MemberID, Name and JobTitle.
 */
module Members {
  import opened Wrappers
  import opened Text

  /** One record of the `members` array; every property may be missing. */
  datatype Member = Member(
    memberID: Option<string>,
    name: Option<string>,
    nationalID: Option<string>,
    dateOfBirth: Option<string>,
    gender: Option<string>,
    jobTitle: Option<string>,
    dateOfEmployment: Option<string>,
    grade: Option<string>,
    email: Option<string>)

  /**
   * `(f && f.toLowerCase().includes(q))` for an already lower-cased query `q`:
   * a missing or empty field never matches, not even the empty query.
   */
  predicate FieldMatches(field: Option<string>, q: string) {
    field.Some? && field.value != "" && Includes(Lower(field.value), q)
  }

  /** The filter predicate of the search handler, for the query as typed. */
  predicate Matches(m: Member, query: string) {
    var q := Lower(query);
    FieldMatches(m.memberID, q) || FieldMatches(m.name, q) || FieldMatches(m.jobTitle, q)
  }

  /** At least one of the three searchable fields is present and non-empty. */
  predicate HasSearchableField(m: Member) {
    (m.memberID.Some? && m.memberID.value != "")
    || (m.name.Some? && m.name.value != "")
    || (m.jobTitle.Some? && m.jobTitle.value != "")
  }

  /** `sub` is `s` with some elements left out, the rest in their original order. */
  predicate IsSubsequence<T(==)>(sub: seq<T>, s: seq<T>) {
    if |sub| == 0 then true
    else if |s| == 0 then false
    else if sub[0] == s[0] then IsSubsequence(sub[1..], s[1..])
    else IsSubsequence(sub, s[1..])
  }

  /**
   * `members.filter(m => ...)`: the members of the snapshot that match, in their
   * original order; every matching member is kept and nothing else is.
   */
  function Filter(members: seq<Member>, query: string): (r: seq<Member>)
    ensures IsSubsequence(r, members)
    ensures forall k :: 0 <= k < |r| ==> Matches(r[k], query)
    ensures forall k :: 0 <= k < |members| && Matches(members[k], query) ==> members[k] in r
    ensures forall m :: multiset(r)[m] == if Matches(m, query) then multiset(members)[m] else 0
  {
    if |members| == 0 then []
    else
      var rest := Filter(members[1..], query);
      assert members == [members[0]] + members[1..];
      assert forall k :: 1 <= k < |members| ==> members[k] == members[1..][k - 1];
      if Matches(members[0], query) then [members[0]] + rest else rest
  }

  /** Every sequence is a subsequence of itself. */
  lemma {:induction false} SubsequenceReflexive<T>(s: seq<T>)
    ensures IsSubsequence(s, s)
  {
    if |s| > 0 {
      SubsequenceReflexive(s[1..]);
    }
  }

  /** A subsequence holds only elements of the sequence and is no longer than it. */
  lemma {:induction false} SubsequenceElements<T>(sub: seq<T>, s: seq<T>)
    requires IsSubsequence(sub, s)
    ensures |sub| <= |s|
    ensures forall x :: x in sub ==> x in s
  {
    if |sub| > 0 {
      if sub[0] == s[0] {
        SubsequenceElements(sub[1..], s[1..]);
        assert forall x :: x in sub ==> x == sub[0] || x in sub[1..];
      } else {
        SubsequenceElements(sub, s[1..]);
      }
    }
  }

  /** Membership in the filtered view: exactly the snapshot members that match. */
  lemma FilterMembership(members: seq<Member>, query: string, m: Member)
    ensures m in Filter(members, query) <==> m in members && Matches(m, query)
  {
    SubsequenceElements(Filter(members, query), members);
  }

  /** Applying the same query to the filtered view changes nothing. */
  lemma {:induction false} FilterIdempotent(members: seq<Member>, query: string)
    ensures Filter(Filter(members, query), query) == Filter(members, query)
  {
    if |members| > 0 {
      FilterIdempotent(members[1..], query);
    }
  }

  /** Filtering by two queries in either order keeps the same members in the same order. */
  lemma {:induction false} FilterCommutes(members: seq<Member>, q1: string, q2: string)
    ensures Filter(Filter(members, q1), q2) == Filter(Filter(members, q2), q1)
  {
    if |members| > 0 {
      FilterCommutes(members[1..], q1, q2);
    }
  }

  /** The empty query matches exactly the members with a non-empty searchable field. */
  lemma EmptyQueryMatches(m: Member)
    ensures Matches(m, "") <==> HasSearchableField(m)
  {
    assert Lower("") == "";
    if m.memberID.Some? { IncludesEmpty(Lower(m.memberID.value)); }
    if m.name.Some? { IncludesEmpty(Lower(m.name.value)); }
    if m.jobTitle.Some? { IncludesEmpty(Lower(m.jobTitle.value)); }
  }

  /** The filtered view is the whole snapshot exactly when every member matches. */
  lemma {:induction false} FilterKeepsAllIff(members: seq<Member>, query: string)
    ensures Filter(members, query) == members <==> forall k :: 0 <= k < |members| ==> Matches(members[k], query)
  {
    if |members| > 0 {
      FilterKeepsAllIff(members[1..], query);
      var rest := Filter(members[1..], query);
      if !Matches(members[0], query) {
        SubsequenceElements(rest, members[1..]);
      }
    }
  }

  /**
   * Clearing the search restores the snapshot exactly when every member has a
   * non-empty MemberID, Name or JobTitle; other members are dropped by the empty query.
   */
  lemma ClearedSearchRestoresIff(members: seq<Member>)
    ensures Filter(members, "") == members <==> forall k :: 0 <= k < |members| ==> HasSearchableField(members[k])
  {
    FilterKeepsAllIff(members, "");
    forall k | 0 <= k < |members| ensures Matches(members[k], "") <==> HasSearchableField(members[k]) {
      EmptyQueryMatches(members[k]);
    }
  }

  /** A member without MemberID, Name or JobTitle disappears when the search is cleared. */
  lemma ClearedSearchDropsBlankMember()
    ensures var blank := Member(None, None, Some("63-123456"), None, None, Some(""), None, None, None);
            Filter([blank], "") == []
  {
  }

  /** A search that differs only in letter case selects the same members. */
  lemma CaseInsensitive(members: seq<Member>, query: string)
    ensures Filter(members, Lower(query)) == Filter(members, query)
  {
    LowerIdempotent(query);
    assert forall m :: Matches(m, Lower(query)) == Matches(m, query);
    FilterSameMatches(members, Lower(query), query);
  }

  /** Two queries that match the same members give the same view. */
  lemma {:induction false} FilterSameMatches(members: seq<Member>, q1: string, q2: string)
    requires forall m :: Matches(m, q1) == Matches(m, q2)
    ensures Filter(members, q1) == Filter(members, q2)
  {
    if |members| > 0 {
      FilterSameMatches(members[1..], q1, q2);
    }
  }

  /**
   * The member table's state: the last fetched snapshot, the rows shown, and
   * whether `loadMembers` has bound the search handler yet.
   */
  class MemberList {
    var snapshot: seq<Member>
    var displayed: seq<Member>
    var searchBound: bool

    /** The rows shown are always drawn, in order, from the latest snapshot. */
    ghost predicate Valid()
      reads this
    {
      IsSubsequence(displayed, snapshot)
    }

    constructor ()
      ensures Valid()
      ensures snapshot == [] && displayed == [] && !searchBound
    {
      snapshot := [];
      displayed := [];
      searchBound := false;
    }

    /**
     * The `.then` of `loadMembers`: `data.members || []` becomes the snapshot, it
     * is shown in full and the search handler is (re)bound to it. A failed fetch
     * changes nothing.
     */
    method OnMembersLoaded(response: Fetch<Option<seq<Member>>>)
      requires Valid()
      modifies this
      ensures Valid()
      ensures response.Received? ==> snapshot == response.body.GetOr([]) && displayed == snapshot && searchBound
      ensures response.Failed? ==> unchanged(this)
    {
      if response.Received? {
        snapshot := response.body.GetOr([]);
        displayed := snapshot;
        searchBound := true;
        SubsequenceReflexive(snapshot);
      }
    }

    /**
     * The `member-search` input handler: the view is recomputed from the whole
     * snapshot, never from the previous view. Before any load there is no handler.
     */
    method OnSearchInput(query: string)
      requires Valid()
      modifies this
      ensures Valid()
      ensures snapshot == old(snapshot) && searchBound == old(searchBound)
      ensures searchBound ==> displayed == Filter(snapshot, query)
      ensures !searchBound ==> displayed == old(displayed)
    {
      if searchBound {
        displayed := Filter(snapshot, query);
      }
    }
  }
}

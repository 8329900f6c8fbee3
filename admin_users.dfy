/** The admin user list (`src/pages/admin/AdminUsers.tsx`): the profiles,
    narrowed by a case-insensitive name search, under a count of all of them. */
module AdminUsers {
  import opened Common
  import opened Tables
  import opened Text

  /** `u.name?.toLowerCase().includes(...)`: a profile without a name never matches. */
  predicate NameMatches(u: ProfileRow, search: string): (matches: bool)
    ensures matches ==> u.name.Some?
    ensures u.name.Some? && search == "" ==> matches
  {
    if u.name.Some? then
      EmptySearchMatches(u.name.value);
      ContainsIgnoringCase(u.name.value, search)
    else
      false
  }

  /** `filtered`. */
  function Filtered(users: seq<ProfileRow>, search: string): (r: seq<ProfileRow>)
    ensures SubsequenceOf(r, users)
    ensures forall i :: 0 <= i < |r| ==> NameMatches(r[i], search)
    ensures forall i :: 0 <= i < |users| && NameMatches(users[i], search) ==> users[i] in r
  {
    FilterIsSubsequence(users, (u: ProfileRow) => NameMatches(u, search));
    Filter(users, (u: ProfileRow) => NameMatches(u, search))
  }

  /** The count in the header: all users, whatever the search. */
  function Total(users: seq<ProfileRow>): (n: nat)
    ensures n == |users|
    ensures forall search :: |Filtered(users, search)| <= n
  {
    |users|
  }

  /** The empty search lists exactly the users that have a name; nameless
      users are dropped for every search. */
  lemma EmptySearchKeepsNamed(users: seq<ProfileRow>, search: string)
    ensures Filtered(users, "") == Filter(users, (u: ProfileRow) => u.name.Some?)
    ensures forall i :: 0 <= i < |users| && users[i].name.None? ==> users[i] !in Filtered(users, search)
  {
    forall u: ProfileRow | u.name.Some? ensures NameMatches(u, "") {
      EmptySearchMatches(u.name.value);
    }
    SameFilter(users, (u: ProfileRow) => NameMatches(u, ""), (u: ProfileRow) => u.name.Some?);
  }

  lemma {:induction false} SameFilter(s: seq<ProfileRow>, p: ProfileRow -> bool, q: ProfileRow -> bool)
    requires forall u :: p(u) == q(u)
    ensures Filter(s, p) == Filter(s, q)
  {
    if s != [] {
      SameFilter(s[1..], p, q);
    }
  }
}

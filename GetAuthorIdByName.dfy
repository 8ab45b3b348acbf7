/** `getAuthorIdByName` and `getAuthorById`: finding a WordPress author from a
    list of candidate names, or by id. The HTTP response is a parameter. */
module GetAuthorIdByName {
  import opened Common
  import opened WordPress
  import opened WpDataTypeFetch

  /** `field?.toLowerCase().includes(name.toLowerCase())`: a missing field is
      `undefined`, which never matches. */
  predicate FieldIncludes(field: Option<string>, name: string)
  {
    field.Some? && Contains(AsciiLower(field.value), AsciiLower(name))
  }

  /** The request `getAuthorIdByName` sends: the users collection, with one
      query parameter asking for 100 users per page. */
  function UsersRequest(cfg: Config): (req: Request)
    ensures req.path == cfg.baseUrl + "/users"
    ensures Get(req.params, "per_page") == Some("100")
    ensures Names(req.params) == {"per_page"}
  {
    Request(cfg.baseUrl + "/users", Set([], "per_page", "100"))
  }

  /** One candidate name matches the user's name, slug or description. */
  predicate NameMatches(user: WpUser, name: string)
  {
    FieldIncludes(user.name, name) || FieldIncludes(user.slug, name) || FieldIncludes(user.description, name)
  }

  /** `authorNames.some(name => …)` for one user. */
  function AnyNameMatches(user: WpUser, names: seq<string>): (b: bool)
    ensures b <==> exists i :: 0 <= i < |names| && NameMatches(user, names[i])
    decreases |names|
  {
    if names == [] then false
    else NameMatches(user, names[0]) || AnyNameMatches(user, names[1..])
  }

  /** `users.find(…)`: the position of the first matching user. */
  function FirstMatch(users: seq<WpUser>, names: seq<string>): (r: Option<nat>)
    ensures r.Some? ==> r.value < |users| && AnyNameMatches(users[r.value], names)
    ensures r.Some? ==> forall j :: 0 <= j < r.value ==> !AnyNameMatches(users[j], names)
    ensures r.None? ==> forall j :: 0 <= j < |users| ==> !AnyNameMatches(users[j], names)
    decreases |users|
  {
    if users == [] then None
    else if AnyNameMatches(users[0], names) then Some(0)
    else
      match FirstMatch(users[1..], names)
      case None => None
      case Some(k) => Some(k + 1)
  }

  /** The id of the first user, in list order, that some candidate name matches;
      `None` (the source's `null`) when none matches, when the response is not
      ok, or when the request throws. */
  function GetAuthorIdByName(response: HttpOutcome<seq<WpUser>>, authorNames: seq<string>): (r: Option<nat>)
    ensures r.Some? <==>
      response.Response? && response.ok
      && exists i :: 0 <= i < |response.body| && AnyNameMatches(response.body[i], authorNames)
    ensures r.Some? ==>
      exists i :: 0 <= i < |response.body| && AnyNameMatches(response.body[i], authorNames)
        && r.value == response.body[i].id
        && forall j :: 0 <= j < i ==> !AnyNameMatches(response.body[j], authorNames)
    ensures authorNames == [] ==> r.None?
  {
    if response.Failure? || !response.ok then None
    else
      match FirstMatch(response.body, authorNames)
      case None => None
      case Some(i) => Some(response.body[i].id)
  }

  /** `getAuthorById`: the parsed user on an ok response, `None` otherwise. */
  function GetAuthorById(response: HttpOutcome<WpUser>): (r: Option<WpUser>)
    ensures r.Some? <==> response.Response? && response.ok
    ensures r.Some? ==> r.value == response.body
  {
    if response.Response? && response.ok then Some(response.body) else None
  }

  /** Lower-casing is idempotent. */
  lemma AsciiLowerIdempotent(s: string)
    ensures AsciiLower(AsciiLower(s)) == AsciiLower(s)
  {
  }

  /** Matching ignores letter case in the candidate: a candidate and its
      lower-cased form match exactly the same users. */
  lemma MatchIgnoresCandidateCase(user: WpUser, name: string)
    ensures NameMatches(user, name) <==> NameMatches(user, AsciiLower(name))
  {
    AsciiLowerIdempotent(name);
  }

  /** The empty candidate is contained in every string, so it matches every user
      who has a name, a slug or a description. */
  lemma EmptyCandidateMatches(user: WpUser)
    requires user.name.Some? || user.slug.Some? || user.description.Some?
    ensures NameMatches(user, "")
  {
    var f := if user.name.Some? then user.name.value
      else if user.slug.Some? then user.slug.value else user.description.value;
    assert OccursAt(AsciiLower(f), AsciiLower(""), 0);
  }

  /** A user with none of the three fields is never found. */
  lemma NoFieldsNeverMatches(user: WpUser, names: seq<string>)
    requires user.name.None? && user.slug.None? && user.description.None?
    ensures !AnyNameMatches(user, names)
  {
  }
}

/** `wpDataTypeFetch`: the request for one page of a WordPress collection, and
    what the caller receives back. */
module WpDataTypeFetch {
  import opened Common
  import opened WordPress

  /** `BASE_URL` and `PER_PAGE`, read from the migration's constants. */
  datatype Config = Config(baseUrl: string, perPage: nat)

  /** A request URL: its path and its ordered query parameters. */
  datatype Request = Request(path: string, params: seq<(string, string)>)

  /** What the returned promise settles to: the body on an ok response, `None`
      (the source's `null`) on any other response, or a thrown error. */
  datatype Fetched<T> = Returned(data: Option<T>) | Threw

  /** `searchParams.get(name)`: the value of the first parameter with that name. */
  function Get(params: seq<(string, string)>, name: string): Option<string>
    decreases |params|
  {
    if params == [] then None
    else if params[0].0 == name then Some(params[0].1)
    else Get(params[1..], name)
  }

  /** The parameter names present. */
  function Names(params: seq<(string, string)>): set<string>
    decreases |params|
  {
    if params == [] then {} else {params[0].0} + Names(params[1..])
  }

  /** `get` finds a value exactly when a parameter of that name is present. */
  lemma {:induction false} GetFindsName(params: seq<(string, string)>, name: string)
    ensures Get(params, name).Some? <==> name in Names(params)
    decreases |params|
  {
    if params != [] && params[0].0 != name {
      GetFindsName(params[1..], name);
    }
  }

  /** `get` reads the first parameter with the name: a value found is that
      parameter's, no earlier parameter has the name, and nothing is found only
      when no parameter has it. */
  lemma {:induction false} GetIsFirst(params: seq<(string, string)>, name: string)
    ensures var r := Get(params, name);
      && (r.Some? ==> exists i :: 0 <= i < |params| && params[i] == (name, r.value)
                        && forall j :: 0 <= j < i ==> params[j].0 != name)
      && (r.None? ==> forall i :: 0 <= i < |params| ==> params[i].0 != name)
    decreases |params|
  {
    if params != [] && params[0].0 != name {
      GetIsFirst(params[1..], name);
      var r := Get(params, name);
      if r.Some? {
        var i :| 0 <= i < |params[1..]| && params[1..][i] == (name, r.value)
          && forall j :: 0 <= j < i ==> params[1..][j].0 != name;
        assert params[i + 1] == (name, r.value);
        forall j | 0 <= j < i + 1 ensures params[j].0 != name {
          if j > 0 { assert params[j] == params[1..][j - 1]; }
        }
      } else {
        forall i | 0 <= i < |params| ensures params[i].0 != name {
          if i > 0 { assert params[i] == params[1..][i - 1]; }
        }
      }
    } else if params != [] {
      assert params[0] == (name, Get(params, name).value);
    }
  }

  function RemoveAll(params: seq<(string, string)>, name: string): (r: seq<(string, string)>)
    ensures Names(r) == Names(params) - {name}
    ensures forall other :: other != name ==> Get(r, other) == Get(params, other)
    decreases |params|
  {
    if params == [] then []
    else if params[0].0 == name then RemoveAll(params[1..], name)
    else
      var rest := RemoveAll(params[1..], name);
      assert ([params[0]] + rest)[1..] == rest;
      [params[0]] + rest
  }

  /** `searchParams.set(name, value)`: the first parameter with that name takes
      the value and any later ones are removed; without one, the pair is
      appended. Every other parameter keeps its value. */
  function Set(params: seq<(string, string)>, name: string, value: string): (r: seq<(string, string)>)
    ensures Get(r, name) == Some(value)
    ensures forall other :: other != name ==> Get(r, other) == Get(params, other)
    ensures Names(r) == Names(params) + {name}
    decreases |params|
  {
    if params == [] then [(name, value)]
    else if params[0].0 == name then
      var rest := RemoveAll(params[1..], name);
      assert ([(name, value)] + rest)[1..] == rest;
      [(name, value)] + rest
    else
      var rest := Set(params[1..], name, value);
      assert ([params[0]] + rest)[1..] == rest;
      [params[0]] + rest
  }

  /** Builds the URL for one page and performs the request, whose outcome is
      the parameter `outcome`. The `author` filter is set only for a truthy
      author id and only on posts and pages. */
  method WpDataTypeFetch<T>(cfg: Config, wpType: WpType, page: nat, authorId: Option<nat>, outcome: HttpOutcome<T>)
    returns (req: Request, result: Fetched<T>)
    ensures req.path == cfg.baseUrl + "/" + wpType.Path()
    ensures Get(req.params, "page") == Some(NatToString(page))
    ensures Get(req.params, "per_page") == Some(NatToString(cfg.perPage))
    ensures Get(req.params, "author").Some? <==> TruthyNat(authorId) && (wpType == WpPosts || wpType == WpPages)
    ensures Get(req.params, "author").Some? ==> Get(req.params, "author") == Some(NatToString(authorId.value))
    ensures Names(req.params) <= {"page", "per_page", "author"}
    ensures result.Threw? <==> outcome.Failure?
    ensures result.Returned? ==> (result.data.Some? <==> outcome.ok)
    ensures result.Returned? && result.data.Some? ==> result.data.value == outcome.body
  {
    var params: seq<(string, string)> := [];
    params := Set(params, "page", NatToString(page));
    params := Set(params, "per_page", NatToString(cfg.perPage));

    if TruthyNat(authorId) && (wpType == WpPosts || wpType == WpPages) {
      params := Set(params, "author", NatToString(authorId.value));
    }
    req := Request(cfg.baseUrl + "/" + wpType.Path(), params);

    // fetch(wpApiUrl).then((res) => (res.ok ? res.json() : null))
    match outcome {
      case Failure => result := Threw;
      case Response(ok, body) => result := Returned(if ok then Some(body) else None);
    }
  }
}

/** What the client-side routers and guards share: route meta flags, route
    records with their children, the navigation a guard asks for, and the
    authentication store's flags. */
module Navigation {
  import opened Common

  /** A route's `meta`; a flag the route does not set reads as false. */
  datatype Meta = Meta(requiresAuth: bool, requiresGuest: bool, requiresEmailVerification: bool,
                       requiresSimVerification: bool, requiresMailAccount: bool, requiresHomeDir: bool)

  const NoMeta := Meta(false, false, false, false, false, false)
  const GuestOnly := NoMeta.(requiresGuest := true)
  const AuthOnly := NoMeta.(requiresAuth := true)

  datatype Flag = AuthFlag | GuestFlag

  predicate Has(m: Meta, f: Flag) {
    match f
    case AuthFlag => m.requiresAuth
    case GuestFlag => m.requiresGuest
  }

  /** `matched.some(record => record.meta[flag])`. */
  function AnyHas(matched: seq<Meta>, f: Flag): (r: bool)
    ensures r <==> exists i :: 0 <= i < |matched| && Has(matched[i], f)
  {
    if matched == [] then false
    else
      var rest := AnyHas(matched[1..], f);
      assert forall i :: 1 <= i < |matched| ==> matched[i] == matched[1..][i - 1];
      Has(matched[0], f) || rest
  }

  /** An entry of a route table: a `path` (relative to its parent's for a
      child), an optional `name` and `redirect`, its `meta` and children. */
  datatype RouteRecord = RouteRecord(path: string, name: Option<string>, redirect: Option<string>,
                                     meta: Meta, children: seq<RouteRecord>)

  /** A location the router resolves: the full path, the name of the
      deepest route record, its redirect, and the meta of every record
      along the way from the outermost. */
  datatype Resolved = Resolved(fullPath: string, name: Option<string>, redirect: Option<string>, matched: seq<Meta>)

  /** A child path is appended to its parent's with a slash between them. */
  function ChildPath(parent: string, child: string): string {
    if parent != [] && parent[|parent| - 1] == '/' then parent + child else parent + "/" + child
  }

  /** The full path of a record with path `path` under a parent at `prefix`. */
  function FullPath(prefix: string, path: string): string {
    if prefix == "" then path else ChildPath(prefix, path)
  }

  /** Every location a table declares, each record before its children. */
  function Flatten(rs: seq<RouteRecord>, prefix: string, outer: seq<Meta>): (r: seq<Resolved>)
    ensures |r| >= |rs|
    decreases rs
  {
    if rs == [] then []
    else
      var full := FullPath(prefix, rs[0].path);
      var here := Resolved(full, rs[0].name, rs[0].redirect, outer + [rs[0].meta]);
      [here] + Flatten(rs[0].children, full, outer + [rs[0].meta]) + Flatten(rs[1..], prefix, outer)
  }

  /** One step of `Flatten`, for a record followed by `rest`. */
  lemma FlattenCons(r: RouteRecord, rest: seq<RouteRecord>, prefix: string, outer: seq<Meta>)
    ensures var full := FullPath(prefix, r.path);
      Flatten([r] + rest, prefix, outer) ==
        [Resolved(full, r.name, r.redirect, outer + [r.meta])] + Flatten(r.children, full, outer + [r.meta]) +
        Flatten(rest, prefix, outer)
  {
    assert ([r] + rest)[1..] == rest;
  }

  /** A table without children resolves record by record, each location
      matching its own record only. */
  lemma {:induction false} FlattenFlat(rs: seq<RouteRecord>)
    requires forall i :: 0 <= i < |rs| ==> rs[i].children == []
    ensures |Flatten(rs, "", [])| == |rs|
    ensures forall i :: 0 <= i < |rs| ==>
      Flatten(rs, "", [])[i] == Resolved(rs[i].path, rs[i].name, rs[i].redirect, [rs[i].meta])
    decreases |rs|
  {
    if rs != [] {
      FlattenFlat(rs[1..]);
      var none: seq<Meta> := [];
      assert none + [rs[0].meta] == [rs[0].meta];
      assert Flatten(rs, "", []) == [Resolved(rs[0].path, rs[0].name, rs[0].redirect, [rs[0].meta])] + Flatten(rs[1..], "", []);
    }
  }

  /** The location a name designates: the first entry that carries it. */
  function Named(entries: seq<Resolved>, name: string): (r: Option<Resolved>)
    ensures r.Some? ==> r.value in entries && r.value.name == Some(name)
    ensures r.None? ==> forall i :: 0 <= i < |entries| ==> entries[i].name != Some(name)
  {
    if entries == [] then None
    else if entries[0].name == Some(name) then Some(entries[0])
    else Named(entries[1..], name)
  }

  /** The entry a name designates is the first one that carries it. */
  lemma {:induction false} NamedFirst(entries: seq<Resolved>, i: nat, name: string)
    requires i < |entries| && entries[i].name == Some(name)
    requires forall j :: 0 <= j < i ==> entries[j].name != Some(name)
    ensures Named(entries, name) == Some(entries[i])
    decreases i
  {
    if i > 0 {
      NamedFirst(entries[1..], i - 1, name);
    }
  }

  /** The meta of the deepest record a location matches: its own. */
  function OwnMeta(e: Resolved): (m: Meta)
    ensures |e.matched| >= 1 ==> m == e.matched[|e.matched| - 1]
  {
    if e.matched == [] then NoMeta else e.matched[|e.matched| - 1]
  }

  /** What a guard passes to `next`: nothing, or a named route with an
      optional `redirect` query. */
  datatype Decision = Proceed | RedirectTo(name: string, redirect: Option<string>)

  /** The flags of the client's authentication store the guards read. */
  datatype AuthState = AuthState(isAuthenticated: bool, userLoaded: bool, isEmailVerified: bool,
                                 isSimVerified: bool, hasMailAccount: bool, hasHomeDir: bool)
}

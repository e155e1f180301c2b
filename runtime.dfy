/// runtime.ts: the router the generated server runs. Rendering a page (`renderAstro`,
/// Astro's `createResult` and `renderPage`) is foreign; the model keeps what is handed to it.
module Runtime {
  import opened JsString
  import opened Collections

  /** A route of the generated server: the compiled page, its name and its assets.
    * The component itself is foreign and stands here as the path it was imported from. */
  datatype AstroModule = AstroModule(component: string, name: string, styles: seq<string>, scripts: seq<string>)

  /** `{ props: {}, children }`: the one style element a page is rendered with. */
  datatype SsrElement = SsrElement(props: map<string, string>, children: string)

  /** What the router answers: an empty 404, or the page rendered with its module and styles. */
  datatype Response =
    | NotFoundResponse(body: string, status: int)
    | Rendered(page: AstroModule, pathname: string, styles: SsrElement)

  /** The key a module is served under: `/` and its name in lower case. */
  function RouteKey(m: AstroModule): string {
    "/" + ToLower(m.name)
  }

  /** `new Map(modules.map(m => [key, m]))`: the pairs entered in order, a later one
    * replacing an earlier one with the same key. */
  function RouterTable(modules: seq<AstroModule>): map<string, AstroModule> {
    if modules == [] then map[]
    else RouterTable(modules[..|modules| - 1])[RouteKey(modules[|modules| - 1]) := modules[|modules| - 1]]
  }

  /** The table holds a key exactly when some module is served under it. */
  lemma {:induction false} RouterTableKeys(modules: seq<AstroModule>, key: string)
    ensures key in RouterTable(modules) <==> exists i :: 0 <= i < |modules| && RouteKey(modules[i]) == key
  {
    if modules != [] {
      var init := modules[..|modules| - 1];
      RouterTableKeys(init, key);
      if exists i :: 0 <= i < |init| && RouteKey(init[i]) == key {
        var i :| 0 <= i < |init| && RouteKey(init[i]) == key;
        assert RouteKey(modules[i]) == key;
      }
      if exists i :: 0 <= i < |modules| && RouteKey(modules[i]) == key {
        var i :| 0 <= i < |modules| && RouteKey(modules[i]) == key;
        if i < |init| {
          assert RouteKey(init[i]) == key;
        }
      }
    }
  }

  /** The module a key maps to is the last one served under it. */
  lemma {:induction false} RouterTableLastWins(modules: seq<AstroModule>, i: nat)
    requires i < |modules|
    requires forall j :: i < j < |modules| ==> RouteKey(modules[j]) != RouteKey(modules[i])
    ensures RouteKey(modules[i]) in RouterTable(modules)
    ensures RouterTable(modules)[RouteKey(modules[i])] == modules[i]
  {
    if i < |modules| - 1 {
      var init := modules[..|modules| - 1];
      RouterTableLastWins(init, i);
    }
  }

  /** `toSSRElement(styles)`: no props, and the distinct styles concatenated in first-seen order. */
  function ToSsrElement(styles: seq<string>): SsrElement {
    SsrElement(map[], Join(Dedup(styles), ""))
  }

  /** The router `createRouter(modules)` returns, applied to a request for `pathname`. */
  function Route(modules: seq<AstroModule>, pathname: string): (r: Response)
    ensures pathname !in RouterTable(modules) <==> r == NotFoundResponse("", 404)
    ensures pathname in RouterTable(modules) ==>
      r == Rendered(RouterTable(modules)[pathname], pathname, ToSsrElement(RouterTable(modules)[pathname].styles))
  {
    var table := RouterTable(modules);
    if pathname !in table then NotFoundResponse("", 404)
    else Rendered(table[pathname], pathname, ToSsrElement(table[pathname].styles))
  }

  /** `modules[i]` is the last module served under `key`. */
  predicate LastUnder(modules: seq<AstroModule>, i: nat, key: string) {
    i < |modules| && RouteKey(modules[i]) == key && forall j :: i < j < |modules| ==> RouteKey(modules[j]) != key
  }

  /** A path no module is served under gets the 404; one that is gets rendered with the last
    * module served under it. */
  lemma RouteOfModule(modules: seq<AstroModule>, pathname: string)
    ensures (forall i :: 0 <= i < |modules| ==> RouteKey(modules[i]) != pathname) ==>
      Route(modules, pathname) == NotFoundResponse("", 404)
    ensures forall i: nat :: LastUnder(modules, i, pathname) ==>
      Route(modules, pathname).Rendered? && Route(modules, pathname).page == modules[i]
  {
    RouterTableKeys(modules, pathname);
    forall i: nat | LastUnder(modules, i, pathname)
      ensures Route(modules, pathname).Rendered? && Route(modules, pathname).page == modules[i]
    {
      RouterTableLastWins(modules, i);
    }
  }

  /** Styles seen already add nothing to the page's style element. */
  lemma {:induction false} RepeatedStylesAddNothing(styles: seq<string>, more: seq<string>)
    requires forall x :: x in more ==> x in styles
    ensures ToSsrElement(styles + more) == ToSsrElement(styles)
  {
    DedupSeen(styles, more);
  }

  lemma {:induction false} DedupSeen<T>(s: seq<T>, t: seq<T>)
    requires forall x :: x in t ==> x in s
    ensures Dedup(s + t) == Dedup(s)
    decreases |t|
  {
    if t == [] {
      assert s + t == s;
    } else {
      var last, front := t[|t| - 1], t[..|t| - 1];
      AppendSnoc(s, t);
      DedupSeen(s, front);
      DedupSnocSeen(s + front, last);
    }
  }

  lemma AppendSnoc<T>(s: seq<T>, t: seq<T>)
    requires t != []
    ensures s + t == (s + t[..|t| - 1]) + [t[|t| - 1]]
    ensures t[|t| - 1] in t && forall x :: x in t[..|t| - 1] ==> x in t
  {
  }

  lemma DedupSnocSeen<T>(s: seq<T>, x: T)
    requires x in s
    ensures Dedup(s + [x]) == Dedup(s)
  {
    assert (s + [x])[..|s|] == s;
    var k :| 0 <= k < |s| && s[k] == x;
  }
}

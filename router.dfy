/**
 * The vue app's router setup (`router.js`): every component file under the
 * components directory whose name matches `[A-Z]\w+\.(vue|js)$` is
 * registered under its path with the leading `./` and the extension
 * stripped, and the route table's component names are replaced by the
 * registered components.
 */
module Router {
  import opened Wrappers
  import opened Text

  // ---------------------------------------------------------------------------
  // Which files are components

  /**
   * The regular expression `/[A-Z]\w+\.(vue|js)$/` matches `s`: an upper-case
   * letter at `i`, at least one word character after it up to a dot at `d`,
   * and `vue` or `js` from there to the end.
   */
  ghost predicate MatchesComponentPattern(s: string) {
    exists i: nat, d: nat :: i + 2 <= d < |s| && IsUpper(s[i]) && WordRunAfter(s, i, d) && ExtensionAt(s, d)
  }

  /** The characters strictly between `i` and `d` are word characters. */
  ghost predicate WordRunAfter(s: string, i: nat, d: nat)
    requires i <= d <= |s|
  {
    forall k :: i < k < d ==> IsWordChar(s[k])
  }

  /** A dot at `d` followed by `vue` or `js` up to the end. */
  predicate ExtensionAt(s: string, d: nat)
    requires d < |s|
  {
    s[d] == '.' &&
    ((d + 4 == |s| && s[d + 1] == 'v' && s[d + 2] == 'u' && s[d + 3] == 'e') ||
     (d + 3 == |s| && s[d + 1] == 'j' && s[d + 2] == 's'))
  }

  /** Where the extension's dot is, if `s` ends in `.vue` or `.js`; there is at most one such place. */
  function ExtensionDot(s: string): (r: Option<nat>)
    ensures r.Some? ==> r.value < |s| && ExtensionAt(s, r.value)
    ensures forall d: nat :: d < |s| && ExtensionAt(s, d) ==> r == Some(d)
  {
    if |s| >= 4 && ExtensionAt(s, |s| - 4) then Some(|s| - 4)
    else if |s| >= 3 && ExtensionAt(s, |s| - 3) then Some(|s| - 3)
    else None
  }

  /**
   * Some upper-case letter at an index below `j`, and at least two before
   * `d`, starts a run of word characters that reaches `d`; the characters
   * from `j` up to `d` are known to be word characters.
   */
  function UpperStartsRun(s: string, d: nat, j: nat): (r: bool)
    requires j <= d <= |s|
    requires forall k :: j <= k < d ==> IsWordChar(s[k])
    ensures r <==> exists i: nat :: i < j && i + 2 <= d && IsUpper(s[i]) && WordRunAfter(s, i, d)
  {
    if j == 0 then false
    else if !IsWordChar(s[j - 1]) then
      assert forall i: nat :: i < j - 1 ==> !WordRunAfter(s, i, d) by {
        forall i: nat | i < j - 1 ensures !WordRunAfter(s, i, d) {
          assert !IsWordChar(s[j - 1]);
        }
      }
      false
    else if IsUpper(s[j - 1]) && j + 1 <= d then
      assert WordRunAfter(s, j - 1, d);
      true
    else
      var r := UpperStartsRun(s, d, j - 1);
      assert r ==> exists i: nat :: i < j && i + 2 <= d && IsUpper(s[i]) && WordRunAfter(s, i, d);
      r
  }

  /** Whether `require.context` picks up the file with key `s`. */
  function IsComponentFile(s: string): (r: bool)
    ensures r <==> MatchesComponentPattern(s)
  {
    match ExtensionDot(s)
    case None => false
    case Some(d) =>
      assert MatchesComponentPattern(s) ==> UpperStartsRun(s, d, d) by {
        if MatchesComponentPattern(s) {
          var i: nat, e: nat :| i + 2 <= e < |s| && IsUpper(s[i]) && WordRunAfter(s, i, e) && ExtensionAt(s, e);
          assert e == d;
        }
      }
      assert UpperStartsRun(s, d, d) ==> MatchesComponentPattern(s) by {
        if UpperStartsRun(s, d, d) {
          var i: nat :| i < d && i + 2 <= d && IsUpper(s[i]) && WordRunAfter(s, i, d);
          assert i + 2 <= d < |s| && IsUpper(s[i]) && WordRunAfter(s, i, d) && ExtensionAt(s, d);
        }
      }
      UpperStartsRun(s, d, d)
  }

  /** The keys `require.context` lists: the component files, in listing order. */
  function ContextKeys(files: seq<string>): (keys: seq<string>)
    ensures forall k :: 0 <= k < |keys| ==> IsComponentFile(keys[k]) && keys[k] in files
    ensures forall f :: f in files && IsComponentFile(f) ==> f in keys
    ensures (forall i :: 0 <= i < |files| ==> IsComponentFile(files[i])) ==> keys == files
  {
    if |files| == 0 then []
    else if IsComponentFile(files[0]) then
      assert files == [files[0]] + files[1..];
      [files[0]] + ContextKeys(files[1..])
    else ContextKeys(files[1..])
  }

  /** Listing in two parts gives the first part's keys before the second's, each in order. */
  lemma {:induction false} ContextKeysAppend(a: seq<string>, b: seq<string>)
    ensures ContextKeys(a + b) == ContextKeys(a) + ContextKeys(b)
  {
    if |a| > 0 {
      assert (a + b)[0] == a[0];
      assert (a + b)[1..] == a[1..] + b;
      ContextKeysAppend(a[1..], b);
    } else {
      assert a + b == b;
    }
  }

  // ---------------------------------------------------------------------------
  // Component names

  /**
   * The regular expression `/^\.\/(.*)\.\w+$/` matches `s` with its last
   * group ending at the dot `p`: `s` starts with `./`, the text after the
   * dot is a non-empty run of word characters, and no line terminator
   * occurs between `./` and the dot.
   */
  ghost predicate NameMatch(s: string, p: nat) {
    StartsWith(s, "./") && 2 <= p < |s| - 1 && s[p] == '.' &&
    (forall k :: p < k < |s| ==> IsWordChar(s[k])) &&
    (forall k :: 2 <= k < p ==> !IsLineTerminator(s[k]))
  }

  /** Only the last dot can end the group, since word characters include no dot. */
  lemma NameMatchUnique(s: string, p: nat, q: nat)
    requires NameMatch(s, p) && NameMatch(s, q)
    ensures p == q
  {
  }

  /** Index of the last `c` in `s`. */
  function LastIndex(s: string, c: char): (r: Option<nat>)
    ensures r.Some? ==> r.value < |s| && s[r.value] == c && forall k :: r.value < k < |s| ==> s[k] != c
    ensures r.None? ==> c !in s
  {
    if |s| == 0 then None
    else if s[|s| - 1] == c then Some(|s| - 1)
    else
      var r := LastIndex(s[..|s| - 1], c);
      assert r.None? ==> forall k :: 0 <= k < |s| ==> s[k] != c by {
        assert forall k :: 0 <= k < |s| - 1 ==> s[..|s| - 1][k] == s[k];
      }
      r
  }

  /** No character of `s[lo..hi]` is a line terminator. */
  function NoLineTerminator(s: string, lo: nat, hi: nat): (r: bool)
    requires lo <= hi <= |s|
    decreases hi - lo
    ensures r <==> forall k :: lo <= k < hi ==> !IsLineTerminator(s[k])
  {
    lo == hi || (!IsLineTerminator(s[lo]) && NoLineTerminator(s, lo + 1, hi))
  }

  /** All characters of `s[lo..hi]` are word characters. */
  function AllWord(s: string, lo: nat, hi: nat): (r: bool)
    requires lo <= hi <= |s|
    decreases hi - lo
    ensures r <==> forall k :: lo <= k < hi ==> IsWordChar(s[k])
  {
    lo == hi || (IsWordChar(s[lo]) && AllWord(s, lo + 1, hi))
  }

  /**
   * `fileName.replace(/^\.\/(.*)\.\w+$/, '$1')`: on a match the whole name
   * becomes the text between `./` and the last dot; otherwise it is left as
   * it is.
   */
  function ComponentName(s: string): (name: string)
    ensures forall p: nat :: NameMatch(s, p) ==> name == s[2..p]
    ensures (forall p: nat :: !NameMatch(s, p)) ==> name == s
  {
    match LastIndex(s, '.')
    case None => s
    case Some(p) =>
      if StartsWith(s, "./") && 2 <= p < |s| - 1 && AllWord(s, p + 1, |s|) && NoLineTerminator(s, 2, p) then
        assert NameMatch(s, p);
        assert forall q: nat :: NameMatch(s, q) ==> q == p by {
          forall q: nat | NameMatch(s, q) ensures q == p {
            NameMatchUnique(s, p, q);
          }
        }
        s[2..p]
      else
        assert forall q: nat :: !NameMatch(s, q);
        s
  }

  /** Two names the registry is expected to produce. */
  lemma ComponentNameExamples()
    ensures ComponentName("./Home.vue") == "Home"
    ensures ComponentName("./ui/Nav.js") == "ui/Nav"
  {
    TopLevelName();
    NestedName();
  }

  lemma TopLevelName()
    ensures ComponentName("./Home.vue") == "Home"
  {
    var a := "./Home.vue";
    assert a[..2] == "./" && a[6] == '.';
    assert a[7] == 'v' && a[8] == 'u' && a[9] == 'e';
    assert NameMatch(a, 6);
    assert a[2..6] == "Home";
  }

  lemma NestedName()
    ensures ComponentName("./ui/Nav.js") == "ui/Nav"
  {
    var b := "./ui/Nav.js";
    assert b[..2] == "./" && b[8] == '.';
    assert b[9] == 'j' && b[10] == 's';
    assert NameMatch(b, 8);
    assert b[2..8] == "ui/Nav";
  }

  // ---------------------------------------------------------------------------
  // The registry

  /**
   * `vueComponents` after the `forEach`: each key's component (identified
   * here by the key of the file it is the default export of) under its
   * name; a later key with the same name overwrites an earlier one.
   */
  function RegistryFrom(keys: seq<string>): map<string, string>
  {
    if |keys| == 0 then map[]
    else RegistryFrom(keys[..|keys| - 1])[ComponentName(keys[|keys| - 1]) := keys[|keys| - 1]]
  }

  /** The `forEach` over the context keys. */
  method BuildRegistry(keys: seq<string>) returns (registry: map<string, string>)
    ensures registry == RegistryFrom(keys)
  {
    registry := map[];
    for i := 0 to |keys|
      invariant registry == RegistryFrom(keys[..i])
    {
      assert keys[..i + 1][..i] == keys[..i];
      registry := registry[ComponentName(keys[i]) := keys[i]];
    }
    assert keys[..|keys|] == keys;
  }

  /** The registered names are exactly the names of the keys. */
  lemma {:induction false} RegistryNames(keys: seq<string>)
    ensures RegistryFrom(keys).Keys == set k | k in keys :: ComponentName(k)
  {
    if |keys| > 0 {
      var init := keys[..|keys| - 1];
      RegistryNames(init);
      assert keys == init + [keys[|keys| - 1]];
      assert forall k :: k in keys <==> k in init || k == keys[|keys| - 1];
    }
  }

  /** A name maps to the last key that bears it. */
  lemma {:induction false} RegistryLastWins(keys: seq<string>, i: nat)
    requires i < |keys|
    requires forall j :: i < j < |keys| ==> ComponentName(keys[j]) != ComponentName(keys[i])
    ensures ComponentName(keys[i]) in RegistryFrom(keys) && RegistryFrom(keys)[ComponentName(keys[i])] == keys[i]
  {
    if i < |keys| - 1 {
      var init := keys[..|keys| - 1];
      assert forall j :: i < j < |init| ==> init[j] == keys[j];
      RegistryLastWins(init, i);
      assert init[i] == keys[i];
    }
  }

  // ---------------------------------------------------------------------------
  // Routes

  /** An entry of the routes file: a path and the name of its component. */
  datatype RouteSpec = RouteSpec(path: string, component: string)

  /** A route handed to the router: the component, or `undefined` when no file has that name. */
  datatype Route = Route(path: string, component: Option<string>)

  /** `routes.map(...)`: the same paths in the same order, each name looked up in the registry. */
  function ReplaceRoutes(routes: seq<RouteSpec>, registry: map<string, string>): (replaced: seq<Route>)
    ensures |replaced| == |routes|
    ensures forall i :: 0 <= i < |routes| ==> replaced[i].path == routes[i].path
    ensures forall i :: 0 <= i < |routes| ==>
      (replaced[i].component.Some? <==> routes[i].component in registry)
    ensures forall i :: 0 <= i < |routes| && routes[i].component in registry ==>
      replaced[i].component == Some(registry[routes[i].component])
  {
    if |routes| == 0 then []
    else
      var r := routes[0];
      var head := Route(r.path, if r.component in registry then Some(registry[r.component]) else None);
      [head] + ReplaceRoutes(routes[1..], registry)
  }

  /**
   * A route naming a component whose key no later key shares a name with
   * resolves to that key's component.
   */
  lemma RouteResolves(keys: seq<string>, routes: seq<RouteSpec>, i: nat, k: nat)
    requires k < |keys| && i < |routes|
    requires routes[i].component == ComponentName(keys[k])
    requires forall j :: k < j < |keys| ==> ComponentName(keys[j]) != ComponentName(keys[k])
    ensures ReplaceRoutes(routes, RegistryFrom(keys))[i].component == Some(keys[k])
  {
    RegistryLastWins(keys, k);
  }
}

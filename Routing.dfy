/**
 * Route keys and path patterns. A route is stored under `method + ":" + path`;
 * the fallback scan splits a key at its first ':' and tests the path part
 * with `MatchPath`.
 */
module Routing {

  /** The key a route is stored under: the method, one ':' and the path. */
  function RouteKey(httpMethod: string, path: string): (key: string)
    ensures |key| == |httpMethod| + 1 + |path|
    ensures key[..|httpMethod|] == httpMethod && key[|httpMethod|] == ':'
    ensures key[|httpMethod| + 1..] == path
  {
    httpMethod + ":" + path
  }

  /** The position of the first occurrence of `c` in `s`. */
  function IndexOf(s: string, c: char): (i: nat)
    requires c in s
    ensures i < |s| && s[i] == c && c !in s[..i]
  {
    if s[0] == c then 0
    else
      var j := IndexOf(s[1..], c);
      assert s[..j + 1] == [s[0]] + s[1..][..j];
      1 + j
  }

  /**
   * `key.split(":", 2)`: the text before the first ':' and everything after it.
   * The two parts rebuild the key, and the first part holds no ':'.
   */
  function SplitKey(key: string): (parts: (string, string))
    requires ':' in key
    ensures key == parts.0 + ":" + parts.1
    ensures ':' !in parts.0
  {
    var i := IndexOf(key, ':');
    assert key == key[..i] + ":" + key[i + 1..];
    (key[..i], key[i + 1..])
  }

  /**
   * A pattern matches a path it equals; a pattern ending in '*' also matches
   * every path that starts with the pattern minus its last character.
   */
  function MatchPath(pattern: string, path: string): (matched: bool)
    ensures pattern == path ==> matched
    ensures (pattern == [] || pattern[|pattern| - 1] != '*') ==> (matched <==> pattern == path)
    ensures pattern != [] && pattern[|pattern| - 1] == '*' ==>
              (matched <==> pattern == path || pattern[..|pattern| - 1] <= path)
  {
    pattern == path
    || (|pattern| > 0 && pattern[|pattern| - 1] == '*' && pattern[..|pattern| - 1] <= path)
  }

  /**
   * The fallback scan's test of one stored key. The key is split at its first
   * ':'; it passes when its method part is "*" or the request method and its
   * path part matches the request path. Equivalently: the key is the key of
   * some registration whose method holds no ':', is "*" or the request
   * method, and whose pattern matches the path.
   */
  function RouteMatches(key: string, httpMethod: string, path: string): (matched: bool)
    requires ':' in key
    ensures matched <==> exists m, p :: key == RouteKey(m, p) && ':' !in m
                                        && (m == "*" || m == httpMethod) && MatchPath(p, path)
  {
    var parts := SplitKey(key);
    assert key == RouteKey(parts.0, parts.1);
    KeySplitsOneWay(key);
    (parts.0 == "*" || parts.0 == httpMethod) && MatchPath(parts.1, path)
  }

  /** A key holding ':' is the key of exactly one (method without ':', path) pair: its split. */
  lemma KeySplitsOneWay(key: string)
    requires ':' in key
    ensures forall m, p :: key == RouteKey(m, p) && ':' !in m ==> SplitKey(key) == (m, p)
  {
    forall m, p | key == RouteKey(m, p) && ':' !in m
      ensures SplitKey(key) == (m, p)
    {
      SplitRouteKey(m, p);
    }
  }

  /** For a method without ':', splitting its key gives back the method and the path. */
  lemma SplitRouteKey(httpMethod: string, path: string)
    requires ':' !in httpMethod
    ensures ':' in RouteKey(httpMethod, path)
    ensures SplitKey(RouteKey(httpMethod, path)) == (httpMethod, path)
  {
    var key := RouteKey(httpMethod, path);
    assert key[|httpMethod|] == ':';
    var parts := SplitKey(key);
    assert parts.0 == key[..|httpMethod|] == httpMethod;
    assert parts.1 == key[|httpMethod| + 1..] == path;
  }

  /** For a method containing ':', the split cuts inside the method, so the key no longer splits into (method, path). */
  lemma SplitKeyOfColonMethod(httpMethod: string, path: string)
    requires ':' in httpMethod
    ensures SplitKey(RouteKey(httpMethod, path)).0 != httpMethod
  {
  }

  /** Two different registrations can share one key: `A:B` with `/x`, and `A` with `B:/x`. */
  lemma RouteKeysCollide()
    ensures RouteKey("A:B", "/x") == RouteKey("A", "B:/x")
  {
  }

  /** A route whose method has no ':' always matches its own method and path in the fallback scan. */
  lemma ExactRouteMatches(httpMethod: string, path: string)
    requires ':' !in httpMethod
    ensures RouteMatches(RouteKey(httpMethod, path), httpMethod, path)
  {
    SplitRouteKey(httpMethod, path);
  }

  /** `prefix*` matches every path that extends `prefix`, and no path that does not (other than itself). */
  lemma WildcardMatchesExtensions(prefix: string, path: string)
    ensures MatchPath(prefix + "*", path) <==> prefix + "*" == path || prefix <= path
  {
  }

  // The worked example: the pattern "/files/*" matches "/files/" and "/files/a/b" but not "/file".
  lemma FilesExample()
    ensures MatchPath("/files/*", "/files/")
    ensures MatchPath("/files/*", "/files/a/b")
    ensures !MatchPath("/files/*", "/file")
  {
  }
}

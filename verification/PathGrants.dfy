/** Path grants of mcp-sudo.yaml (internal/config/sudo.go): the string test on
    cleaned paths is exactly a test on path elements. */
module PathGrants {
  import opened Text
  import opened Paths

  /** An absolute path lies at or below an absolute entry. */
  ghost predicate Within(path: string, entry: string) {
    IsAbs(path) && IsAbs(entry) && Components(entry) <= Components(path)
  }

  ghost predicate Covered(path: string, allowed: seq<string>) {
    exists i :: 0 <= i < |allowed| && Within(path, allowed[i])
  }

  ghost predicate CoversEveryPath(allowed: seq<string>) {
    forall path: string :: IsAbs(path) ==> Covered(path, allowed)
  }

  /** The comparison the code makes between a cleaned path and an entry. */
  predicate EntryMatches(clean: string, entry: string) {
    var a := Clean(entry);
    a == "/" || clean == a || HasPrefix(clean, a + "/")
  }

  /** The string comparison decides containment of path elements, exactly. */
  lemma StringTestIsElementTest(path: string, entry: string)
    requires IsAbs(path) && IsAbs(entry)
    ensures EntryMatches(Clean(path), entry) <==> Within(path, entry)
  {
    var p, e := Components(path), Components(entry);
    CleanedIsPlain(path);
    CleanedIsPlain(entry);
    RootIsNoElements(entry);
    RootIsNoElements(path);
    if e != [] && p != [] {
      PrefixIsComponentPrefix(e, p);
      assert Clean(path) == Clean(entry) <==> p == e by {
        if Clean(path) == Clean(entry) { RootedInjective(p, e); }
      }
    } else if e != [] {
      assert Plain(e[0]);
      RootedIsJoin(e);
    }
  }

  lemma RootIsNoElements(path: string)
    requires IsAbs(path)
    ensures Clean(path) == "/" <==> Components(path) == []
  {
    CleanedIsPlain(path);
    var names := Components(path);
    if names != [] {
      assert Plain(names[0]);
      assert |Rooted(names)| >= 2;
    }
  }

  method PathAllowed(path: string, allowed: seq<string>) returns (clean: string, ok: bool)
    ensures ok <==> Covered(path, allowed)
    ensures clean == if ok then Clean(path) else ""
  {
    if !HasPrefix(path, "/") {
      return "", false;
    }
    clean := Clean(path);
    for i := 0 to |allowed|
      invariant forall j :: 0 <= j < i ==> !Within(path, allowed[j])
    {
      if !HasPrefix(allowed[i], "/") {
        continue;
      }
      var a := Clean(allowed[i]);
      StringTestIsElementTest(path, allowed[i]);
      if a == "/" || clean == a || HasPrefix(clean, a + "/") {
        return clean, true;
      }
    }
    return "", false;
  }

  method CoversRoot(allowed: seq<string>) returns (covers: bool)
    ensures covers <==> CoversEveryPath(allowed)
  {
    covers := false;
    for i := 0 to |allowed|
      invariant !covers
      invariant forall j :: 0 <= j < i ==> !IsRootEntry(allowed[j])
    {
      if IsRootEntry(allowed[i]) {
        covers := true;
        break;
      }
    }
    RootCoverage(allowed);
  }

  predicate IsRootEntry(entry: string) {
    IsAbs(entry) && Clean(entry) == "/"
  }

  /** A list covers every absolute path exactly when one entry cleans to "/". */
  lemma RootCoverage(allowed: seq<string>)
    ensures (exists i :: 0 <= i < |allowed| && IsRootEntry(allowed[i])) <==>
            CoversEveryPath(allowed)
  {
    if i :| 0 <= i < |allowed| && IsRootEntry(allowed[i]) {
      RootIsNoElements(allowed[i]);
      forall path: string | IsAbs(path) ensures Covered(path, allowed) {
        assert Within(path, allowed[i]);
      }
    }
    if CoversEveryPath(allowed) {
      ComponentsFromRoot([]);
      assert IsAbs("/") && Components("/") == [];
      assert Covered("/", allowed);
      var i :| 0 <= i < |allowed| && Within("/", allowed[i]);
      RootIsNoElements(allowed[i]);
      assert IsRootEntry(allowed[i]);
    }
  }

  /** What PathAllowed hands on is already clean and is accepted again, so no
      later cleaning or second check can read it differently. */
  lemma AcceptedPathIsStable(path: string, allowed: seq<string>)
    requires Covered(path, allowed)
    ensures Clean(Clean(path)) == Clean(path)
    ensures Covered(Clean(path), allowed)
  {
    CleanIsIdempotent(path);
    var i :| 0 <= i < |allowed| && Within(path, allowed[i]);
    assert Within(Clean(path), allowed[i]);
  }

  /** Everything below an accepted path is accepted too. */
  lemma AcceptanceIsInherited(path: string, below: string, allowed: seq<string>)
    requires Covered(path, allowed) && Within(below, path)
    ensures Covered(below, allowed)
  {
    var i :| 0 <= i < |allowed| && Within(path, allowed[i]);
    var e, p, b := Components(allowed[i]), Components(path), Components(below);
    assert e == p[..|e|] && p == b[..|p|];
    assert e == b[..|e|];
    assert Within(below, allowed[i]);
  }

  // ----- resource grants -----

  /** Privileged.Resources of each user: scheme to granted prefixes. */
  type ResourceGrants = map<string, map<string, seq<string>>>

  function Prefixes(grants: ResourceGrants, user: string, scheme: string): seq<string> {
    if user in grants && scheme in grants[user] then grants[user][scheme] else []
  }

  ghost predicate Readable(ps: seq<string>, resourcePath: string) {
    exists i :: 0 <= i < |ps| && PrefixGrants(ps[i], resourcePath)
  }

  ghost predicate EveryPathReadable(ps: seq<string>) {
    forall path: string :: IsAbs(path) ==> Readable(ps, path)
  }

  /** One granted prefix lets one resource path be read as root. */
  ghost predicate PrefixGrants(p: string, resourcePath: string) {
    || p == ""
    || (IsAbs(p) && Within(resourcePath, p))
    || (!IsAbs(p) && !IsAbs(resourcePath) && HasPrefix(resourcePath, p))
  }

  method CanReadResourceAsRoot(grants: ResourceGrants, user: string, scheme: string, resourcePath: string)
    returns (allowed: bool)
    ensures allowed <==> Readable(Prefixes(grants, user, scheme), resourcePath)
  {
    if user !in grants || scheme !in grants[user] {
      return false;
    }
    var ps := grants[user][scheme];
    for i := 0 to |ps|
      invariant forall j :: 0 <= j < i ==> !PrefixGrants(ps[j], resourcePath)
    {
      var p := ps[i];
      if resourcePath == p {
        return true;
      } else if p == "" {
        return true;
      } else if HasPrefix(p, "/") {
        var _, ok := PathAllowed(resourcePath, [p]);
        if ok {
          return true;
        }
        assert !Within(resourcePath, [p][0]);
      } else if !HasPrefix(resourcePath, "/") && HasPrefix(resourcePath, p) {
        return true;
      }
    }
    return false;
  }

  method ResourceGrantCoversRoot(grants: ResourceGrants, user: string, scheme: string)
    returns (covers: bool)
    ensures covers <==> EveryPathReadable(Prefixes(grants, user, scheme))
  {
    SchemeRootCoverage(Prefixes(grants, user, scheme));
    if user !in grants {
      return false;
    }
    covers := HasWholeScheme(if scheme in grants[user] then grants[user][scheme] else []);
  }

  method HasWholeScheme(ps: seq<string>) returns (yes: bool)
    ensures yes <==> exists i :: 0 <= i < |ps| && WholeScheme(ps[i])
  {
    for i := 0 to |ps|
      invariant forall j :: 0 <= j < i ==> !WholeScheme(ps[j])
    {
      if ps[i] == "" || (HasPrefix(ps[i], "/") && Clean(ps[i]) == "/") {
        assert WholeScheme(ps[i]);
        return true;
      }
    }
    return false;
  }

  predicate WholeScheme(p: string) {
    p == "" || IsRootEntry(p)
  }

  /** A scheme's prefixes reach every absolute path exactly when one of them is
      "" or cleans to "/"; no other prefix, exact match included, can. */
  lemma SchemeRootCoverage(ps: seq<string>)
    ensures (exists i :: 0 <= i < |ps| && WholeScheme(ps[i])) <==>
            EveryPathReadable(ps)
  {
    if i :| 0 <= i < |ps| && WholeScheme(ps[i]) {
      forall path: string | IsAbs(path) ensures Readable(ps, path) {
        if ps[i] != "" { RootIsNoElements(ps[i]); }
        assert PrefixGrants(ps[i], path);
      }
    }
    if EveryPathReadable(ps) {
      ComponentsFromRoot([]);
      assert IsAbs("/") && Components("/") == [];
      assert Readable(ps, "/");
      var i :| 0 <= i < |ps| && PrefixGrants(ps[i], "/");
      if ps[i] != "" { RootIsNoElements(ps[i]); }
      assert WholeScheme(ps[i]);
    }
  }
}

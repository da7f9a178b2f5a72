/** filepath.Clean, as it is documented: repeated separators collapse, "."
    disappears, ".." removes the element before it, and at the root of an
    absolute path ".." disappears too. */
module Paths {
  import opened Text

  predicate IsAbs(path: string) {
    HasPrefix(path, "/")
  }

  /** One path element applied to the elements kept so far. */
  function Step(rooted: bool, kept: seq<string>, name: string): seq<string> {
    if name == "" || name == "." then kept
    else if name != ".." then kept + [name]
    else if kept != [] && kept[|kept| - 1] != ".." then kept[..|kept| - 1]
    else if rooted then kept
    else kept + [".."]
  }

  function Normalize(rooted: bool, names: seq<string>): seq<string> {
    if names == [] then []
    else Step(rooted, Normalize(rooted, names[..|names| - 1]), names[|names| - 1])
  }

  /** The elements of a path once cleaned. */
  function Components(path: string): seq<string> {
    Normalize(IsAbs(path), Split(path, '/'))
  }

  /** "/a/b" for [a, b], and "" for no elements. */
  function Rooted(names: seq<string>): string {
    if names == [] then "" else "/" + names[0] + Rooted(names[1..])
  }

  function FromRoot(names: seq<string>): string {
    if names == [] then "/" else Rooted(names)
  }

  function Clean(path: string): string {
    var names := Components(path);
    if IsAbs(path) then FromRoot(names)
    else if names == [] then "."
    else Join(names, '/')
  }

  /** A name that stands for a directory entry and nothing else. */
  predicate Plain(name: string) {
    name != "" && name != "." && name != ".." && '/' !in name
  }

  ghost predicate AllPlain(names: seq<string>) {
    forall i :: 0 <= i < |names| ==> Plain(names[i])
  }

  lemma {:induction false} NormalizePlain(names: seq<string>)
    requires AllFree(names, '/')
    ensures AllPlain(Normalize(true, names))
  {
    if names != [] {
      var init := names[..|names| - 1];
      assert AllFree(init, '/') by {
        forall i | 0 <= i < |init| ensures Free(init[i], '/') { assert init[i] == names[i]; }
      }
      NormalizePlain(init);
      assert Free(names[|names| - 1], '/');
    }
  }

  /** No "", "." or ".." survives cleaning an absolute path. */
  lemma CleanedIsPlain(path: string)
    requires IsAbs(path)
    ensures AllPlain(Components(path))
  {
    SplitAllFree(path, '/');
    NormalizePlain(Split(path, '/'));
  }

  lemma {:induction false} NormalizeFixed(names: seq<string>)
    requires AllPlain(names)
    ensures Normalize(true, names) == names
  {
    if names != [] {
      var init := names[..|names| - 1];
      assert AllPlain(init) by {
        forall i | 0 <= i < |init| ensures Plain(init[i]) { assert init[i] == names[i]; }
      }
      NormalizeFixed(init);
      assert init + [names[|names| - 1]] == names;
    }
  }

  lemma {:induction false} NormalizeSkipsEmpty(names: seq<string>)
    ensures Normalize(true, [""] + names) == Normalize(true, names)
  {
    if names == [] {
      assert [""] + names == [""];
      assert [""][..0] == [];
    } else {
      var all := [""] + names;
      assert all[..|all| - 1] == [""] + names[..|names| - 1];
      NormalizeSkipsEmpty(names[..|names| - 1]);
    }
  }

  lemma {:induction false} RootedIsJoin(names: seq<string>)
    requires names != []
    ensures Rooted(names) == "/" + Join(names, '/')
  {
    if |names| == 1 {
      assert names[1..] == [];
      assert Rooted(names) == "/" + names[0] + "";
    } else {
      RootedIsJoin(names[1..]);
    }
  }

  /** Taking a cleaned path apart again gives the elements it was built from. */
  lemma ComponentsFromRoot(names: seq<string>)
    requires AllPlain(names)
    ensures IsAbs(FromRoot(names)) && Components(FromRoot(names)) == names
  {
    if names == [] {
      assert Split("/", '/') == ["", ""] by {
        assert "/"[1..] == "";
        assert [""] + [""] == ["", ""];
      }
      assert ["", ""][..1] == [""] && [""][..0] == [];
    } else {
      RootedIsJoin(names);
      var tail := Join(names, '/');
      assert AllFree(names, '/') by {
        forall i | 0 <= i < |names| ensures Free(names[i], '/') { assert Plain(names[i]); }
      }
      SplitJoin(names, '/');
      assert ("/" + tail)[0] == '/' && ("/" + tail)[1..] == tail;
      NormalizeSkipsEmpty(names);
      NormalizeFixed(names);
    }
  }

  lemma CleanIsIdempotent(path: string)
    requires IsAbs(path)
    ensures IsAbs(Clean(path))
    ensures Components(Clean(path)) == Components(path)
    ensures Clean(Clean(path)) == Clean(path)
  {
    CleanedIsPlain(path);
    ComponentsFromRoot(Components(path));
  }

  /** What strings.Split(strings.TrimPrefix(clean, "/"), "/") yields. */
  lemma TrimmedSplit(names: seq<string>)
    requires AllPlain(names) && names != []
    ensures HasPrefix(FromRoot(names), "/")
    ensures Split(FromRoot(names)[1..], '/') == names
  {
    RootedIsJoin(names);
    assert AllFree(names, '/') by {
      forall i | 0 <= i < |names| ensures Free(names[i], '/') { assert Plain(names[i]); }
    }
    SplitJoin(names, '/');
    assert ("/" + Join(names, '/'))[1..] == Join(names, '/');
  }

  lemma {:induction false} RootedAppend(names: seq<string>, name: string)
    ensures Rooted(names + [name]) == Rooted(names) + "/" + name
  {
    if names == [] {
      assert [name][1..] == [];
      assert names + [name] == [name];
    } else {
      assert (names + [name])[1..] == names[1..] + [name];
      RootedAppend(names[1..], name);
    }
  }

  /** Two names that both run up to a '/' (or the end) of one string are equal. */
  lemma SameHead(a: string, b: string, s: string, x: string, y: string)
    requires '/' !in a && '/' !in b
    requires a + x == s && b + y == s
    requires x == "" || x[0] == '/'
    requires y == "" || y[0] == '/'
    ensures a == b && x == y
  {
    HeadEnds(a, s, x);
    HeadEnds(b, s, y);
    assert |a| == |b|;
    assert a == s[..|a|] && b == s[..|b|];
    assert x == s[|a|..] && y == s[|b|..];
  }

  lemma HeadEnds(a: string, s: string, x: string)
    requires '/' !in a && a + x == s
    requires x == "" || x[0] == '/'
    ensures |a| <= |s| && forall i :: 0 <= i < |a| ==> s[i] != '/'
    ensures |a| < |s| ==> s[|a|] == '/'
  {
    forall i | 0 <= i < |a| ensures s[i] != '/' {
      assert s[i] == a[i] && a[i] in a;
    }
  }

  lemma RootedHead(names: seq<string>)
    ensures Rooted(names) == "" || Rooted(names)[0] == '/'
    ensures Rooted(names) == "" <==> names == []
  {
  }

  lemma {:induction false} RootedInjective(a: seq<string>, b: seq<string>)
    requires AllPlain(a) && AllPlain(b)
    requires Rooted(a) == Rooted(b)
    ensures a == b
  {
    RootedHead(a);
    RootedHead(b);
    if a != [] && b != [] {
      assert Plain(a[0]) && Plain(b[0]);
      RootedHead(a[1..]);
      RootedHead(b[1..]);
      var s := Rooted(a)[1..];
      assert s == a[0] + Rooted(a[1..]);
      assert s == b[0] + Rooted(b[1..]);
      SameHead(a[0], b[0], s, Rooted(a[1..]), Rooted(b[1..]));
      TailPlain(a);
      TailPlain(b);
      RootedInjective(a[1..], b[1..]);
      assert a == [a[0]] + a[1..] && b == [b[0]] + b[1..];
    }
  }

  lemma TailPlain(names: seq<string>)
    requires AllPlain(names) && names != []
    ensures AllPlain(names[1..])
  {
    forall i | 0 <= i < |names[1..]| ensures Plain(names[1..][i]) {
      assert names[1..][i] == names[i + 1];
    }
  }

  /** One element of a path prefix; `ra` and `rb` are what follows it. */
  lemma PrefixStep(x: string, ra: string, y: string, rb: string)
    requires Plain(x) && Plain(y) && (rb == "" || rb[0] == '/') && (ra == "" || ra[0] == '/')
    ensures HasPrefix("/" + y + rb, "/" + x + ra + "/") <==> x == y && HasPrefix(rb, ra + "/")
  {
    var need, s := "/" + x + ra + "/", "/" + y + rb;
    if HasPrefix(s, need) {
      var rest := s[|need|..];
      assert s == need + rest;
      assert s[1..] == x + (ra + "/" + rest) && s[1..] == y + rb;
      SameHead(x, y, s[1..], ra + "/" + rest, rb);
    }
    if x == y && HasPrefix(rb, ra + "/") {
      assert rb == (ra + "/") + rb[|ra + "/"|..];
      assert s == need + rb[|ra + "/"|..];
    }
  }

  lemma PrefixCons(a: seq<string>, b: seq<string>)
    requires a != [] && b != []
    ensures a < b <==> a[0] == b[0] && a[1..] < b[1..]
  {
    assert a == [a[0]] + a[1..] && b == [b[0]] + b[1..];
  }

  /** A string prefix that ends at a separator is a prefix of the elements. */
  lemma {:induction false} PrefixIsComponentPrefix(a: seq<string>, b: seq<string>)
    requires AllPlain(a) && AllPlain(b)
    ensures HasPrefix(Rooted(b), Rooted(a) + "/") <==> a < b
  {
    RootedHead(b);
    if a == [] {
      assert Rooted(a) + "/" == "/";
      assert b != [] ==> Rooted(b)[..1] == "/";
    } else if b != [] {
      assert Plain(a[0]) && Plain(b[0]);
      TailPlain(a);
      TailPlain(b);
      RootedHead(a[1..]);
      RootedHead(b[1..]);
      PrefixIsComponentPrefix(a[1..], b[1..]);
      PrefixStep(a[0], Rooted(a[1..]), b[0], Rooted(b[1..]));
      PrefixCons(a, b);
    }
  }

  // ----- one element more -----

  /** What an element at the end of a path does: "" and "." nothing, ".." takes the
      last element away, if there is one to take, and any other is added. */
  lemma ComponentsOfLonger(path: string, name: string)
    requires '/' !in name && path != ""
    ensures var before, after := Components(path), Components(path + "/" + name);
            if name == "" || name == "." then after == before
            else if name != ".." then after == before + [name]
            else if before != [] && before[|before| - 1] != ".." then after == before[..|before| - 1]
            else after == if IsAbs(path) then before else before + [".."]
  {
    var longer := path + ['/'] + name;
    SplitAt(path, name, '/');
    SplitFree(name, '/');
    var parts := Split(path, '/') + [name];
    assert Split(longer, '/') == parts && parts[..|parts| - 1] == Split(path, '/');
    assert IsAbs(longer) == IsAbs(path);
  }

  /** A path of one element, with and without the slash. */
  lemma ComponentsOfOne(name: string)
    requires '/' !in name
    ensures Components(name) == if name == "" || name == "." then [] else [name]
    ensures Components("/" + name) == if name == "" || name == "." || name == ".." then [] else [name]
  {
    SplitFree(name, '/');
    assert [name][..0] == [];
    assert Normalize(false, [name]) == Step(false, [], name);
    assert name != "" ==> name[0] in name;
    assert "/" + name == "" + ['/'] + name;
    SplitAt("", name, '/');
    assert Split("", '/') + [name] == ["", name] && ["", name][..1] == [""] && [""][..0] == [];
    assert Normalize(true, ["", name]) == Step(true, Step(true, [], ""), name);
  }
}

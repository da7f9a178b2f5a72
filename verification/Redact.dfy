/** internal/rpc/tools.go: the arguments of a call with sensitive values masked,
    as they are written to the log. */
module Redact {
  import opened Text

  /** Decoded JSON; `Leaf` is a string, number, boolean or null. */
  datatype Json = Leaf(text: string) | Arr(items: seq<Json>) | Obj(fields: map<string, Json>)

  const WORDS: seq<string> :=
    ["password", "token", "secret", "authorization", "cookie", "content", "body", "data", "header", "value", "key"]

  const MASK := Leaf("<redacted>")

  /** strings.ToLower, which is not part of this model. */
  type Lower = string -> string

  /** strings.Contains. */
  predicate Contains(s: string, word: string) {
    exists i :: 0 <= i <= |s| && word <= s[i..]
  }

  predicate Sensitive(lower: Lower, key: string) {
    exists i :: 0 <= i < |WORDS| && Contains(lower(key), WORDS[i])
  }

  /** What redactValue makes of a value, level by level. */
  function Masked(lower: Lower, v: Json): Json
    decreases v
  {
    match v
    case Leaf(_) => v
    case Arr(items) => Arr(seq(|items|, i requires 0 <= i < |items| => Masked(lower, items[i])))
    case Obj(fields) => Obj(map k | k in fields :: if Sensitive(lower, k) then MASK else Masked(lower, fields[k]))
  }

  method IsSensitive(lower: Lower, key: string) returns (yes: bool)
    ensures yes <==> Sensitive(lower, key)
  {
    var lk := lower(key);
    for i := 0 to |WORDS|
      invariant forall j :: 0 <= j < i ==> !Contains(lk, WORDS[j])
    {
      if Contains(lk, WORDS[i]) {
        return true;
      }
    }
    return false;
  }

  method RedactValue(lower: Lower, v: Json) returns (r: Json)
    ensures r == Masked(lower, v)
    decreases v, 1
  {
    match v {
      case Leaf(_) => r := v;
      case Arr(items) =>
        var t := items;
        for i := 0 to |items|
          invariant |t| == |items| && (forall j :: 0 <= j < i ==> t[j] == Masked(lower, items[j]))
          invariant forall j :: i <= j < |items| ==> t[j] == items[j]
        {
          var x := RedactValue(lower, items[i]);
          t := t[i := x];
        }
        r := Arr(t);
        assert t == Masked(lower, v).items;
      case Obj(_) => r := RedactFields(lower, v);
    }
  }

  method RedactFields(lower: Lower, v: Json) returns (r: Json)
    requires v.Obj?
    ensures r == Masked(lower, v)
    decreases v, 0
  {
    var fields := v.fields;
    var t := fields;
    var rest := fields.Keys;
    while rest != {}
      invariant rest <= fields.Keys && t.Keys == fields.Keys
      invariant forall k :: k in rest ==> t[k] == fields[k]
      invariant forall k :: k in fields && k !in rest ==> t[k] == if Sensitive(lower, k) then MASK else Masked(lower, fields[k])
      decreases rest
    {
      var k :| k in rest;
      rest := rest - {k};
      var masked := IsSensitive(lower, k);
      if masked {
        t := t[k := MASK];
      } else {
        var x := RedactValue(lower, fields[k]);
        t := t[k := x];
      }
    }
    r := Obj(t);
    assert t == Masked(lower, v).fields;
  }

  // ----- what the log shows -----

  /** The same but for what lies below sensitive keys, at any depth. */
  ghost predicate SameVisible(lower: Lower, a: Json, b: Json)
    decreases a
  {
    match a
    case Leaf(_) => a == b
    case Arr(xs) => b.Arr? && |xs| == |b.items| && forall i :: 0 <= i < |xs| ==> SameVisible(lower, xs[i], b.items[i])
    case Obj(fs) => b.Obj? && fs.Keys == b.fields.Keys
                    && forall k :: k in fs && !Sensitive(lower, k) ==> SameVisible(lower, fs[k], b.fields[k])
  }

  /** Redaction hides exactly what is below sensitive keys: two values redact to
      the same thing if and only if they differ nowhere else. */
  lemma {:induction false} HidesExactlySensitive(lower: Lower, a: Json, b: Json)
    ensures Masked(lower, a) == Masked(lower, b) <==> SameVisible(lower, a, b)
    decreases a
  {
    var ra, rb := Masked(lower, a), Masked(lower, b);
    match a
    case Leaf(_) =>
    case Arr(xs) =>
      if b.Arr? && |xs| == |b.items| {
        forall i | 0 <= i < |xs| ensures ra.items[i] == rb.items[i] <==> SameVisible(lower, xs[i], b.items[i]) {
          HidesExactlySensitive(lower, xs[i], b.items[i]);
        }
        assert ra == rb <==> ra.items == rb.items;
      } else if b.Arr? {
        assert |ra.items| != |rb.items|;
      }
    case Obj(fs) =>
      if b.Obj? && fs.Keys == b.fields.Keys {
        forall k | k in fs ensures ra.fields[k] == rb.fields[k] <==> (Sensitive(lower, k) || SameVisible(lower, fs[k], b.fields[k])) {
          HidesExactlySensitive(lower, fs[k], b.fields[k]);
        }
        assert ra == rb <==> ra.fields == rb.fields;
      } else if b.Obj? {
        assert ra.fields.Keys == fs.Keys && rb.fields.Keys == b.fields.Keys;
      }
  }

  /** A value and its redaction look the same in the log. */
  lemma {:induction false} LooksTheSame(lower: Lower, a: Json)
    ensures SameVisible(lower, a, Masked(lower, a))
    decreases a
  {
    match a
    case Leaf(_) =>
    case Arr(xs) =>
      forall i | 0 <= i < |xs| ensures SameVisible(lower, xs[i], Masked(lower, a).items[i]) {
        LooksTheSame(lower, xs[i]);
      }
    case Obj(fs) =>
      forall k | k in fs && !Sensitive(lower, k) ensures SameVisible(lower, fs[k], Masked(lower, a).fields[k]) {
        LooksTheSame(lower, fs[k]);
      }
  }

  /** Redacting twice is redacting once. */
  lemma RedactionIsIdempotent(lower: Lower, a: Json)
    ensures Masked(lower, Masked(lower, a)) == Masked(lower, a)
  {
    LooksTheSame(lower, a);
    HidesExactlySensitive(lower, a, Masked(lower, a));
  }

  /** Every sensitive key, at any depth, already carries the mask. */
  ghost predicate NothingToHide(lower: Lower, a: Json)
    decreases a
  {
    match a
    case Leaf(_) => true
    case Arr(xs) => forall i :: 0 <= i < |xs| ==> NothingToHide(lower, xs[i])
    case Obj(fs) => forall k :: k in fs ==> if Sensitive(lower, k) then fs[k] == MASK else NothingToHide(lower, fs[k])
  }

  /** A value is left as it is exactly when it has nothing to hide. */
  lemma {:induction false} UnchangedIffNothingToHide(lower: Lower, a: Json)
    ensures Masked(lower, a) == a <==> NothingToHide(lower, a)
    decreases a
  {
    var r := Masked(lower, a);
    match a
    case Leaf(_) =>
    case Arr(xs) =>
      forall i | 0 <= i < |xs| ensures r.items[i] == xs[i] <==> NothingToHide(lower, xs[i]) {
        UnchangedIffNothingToHide(lower, xs[i]);
      }
      assert r == a <==> r.items == xs;
    case Obj(fs) =>
      forall k | k in fs ensures r.fields[k] == fs[k] <==> if Sensitive(lower, k) then fs[k] == MASK else NothingToHide(lower, fs[k]) {
        UnchangedIffNothingToHide(lower, fs[k]);
      }
      assert r == a <==> r.fields == fs;
  }

  /** The words of a path through a value: a key, or a place in an array. */
  datatype Hop = Key(k: string) | Index(i: nat)

  function At(v: Json, path: seq<Hop>): Option<Json> {
    if path == [] then Some(v)
    else
      match path[0]
      case Key(k) => if v.Obj? && k in v.fields then At(v.fields[k], path[1..]) else None
      case Index(i) => if v.Arr? && i < |v.items| then At(v.items[i], path[1..]) else None
  }

  predicate Clear(lower: Lower, path: seq<Hop>) {
    forall j :: 0 <= j < |path| ==> path[j].Index? || !Sensitive(lower, path[j].k)
  }

  /** On a path without a sensitive key the log shows what is there. */
  lemma {:induction false} ClearPathsShow(lower: Lower, v: Json, path: seq<Hop>)
    requires Clear(lower, path)
    ensures At(Masked(lower, v), path) == match At(v, path) case None => None case Some(x) => Some(Masked(lower, x))
    decreases |path|
  {
    if path != [] {
      var rest := path[1..];
      assert path[0].Index? || !Sensitive(lower, path[0].k);
      assert Clear(lower, rest) by {
        forall j | 0 <= j < |rest| ensures rest[j].Index? || !Sensitive(lower, rest[j].k) {
          assert rest[j] == path[j + 1];
        }
      }
      match path[0]
      case Key(k) => if v.Obj? && k in v.fields { ClearPathsShow(lower, v.fields[k], rest); }
      case Index(i) => if v.Arr? && i < |v.items| { ClearPathsShow(lower, v.items[i], rest); }
    }
  }

  // ----- which keys, and what stands for their values -----

  lemma ContainsIs(s: string, word: string)
    ensures Contains(s, word) <==> exists a, b :: s == a + word + b
  {
    if Contains(s, word) {
      var i :| 0 <= i <= |s| && word <= s[i..];
      assert s == s[..i] + word + s[i..][|word|..];
    }
    if a, b :| s == a + word + b {
      assert s[|a|..] == word + b;
    }
  }

  /** A key is sensitive exactly if, in lower case, it has one of these words in it. */
  lemma SensitiveIs(lower: Lower, key: string)
    ensures Sensitive(lower, key) <==>
              exists word, a, b :: lower(key) == a + word + b && word in
                ["password", "token", "secret", "authorization", "cookie", "content", "body", "data", "header", "value", "key"]
  {
    if Sensitive(lower, key) {
      var i :| 0 <= i < |WORDS| && Contains(lower(key), WORDS[i]);
      ContainsIs(lower(key), WORDS[i]);
      assert WORDS[i] in WORDS;
    }
    if word, a, b :| lower(key) == a + word + b && word in WORDS {
      ContainsIs(lower(key), word);
      var i :| 0 <= i < |WORDS| && WORDS[i] == word;
    }
  }

  /** A sensitive key shows the mask, wherever it is met first. */
  lemma SensitiveKeysShowTheMask(lower: Lower, v: Json, path: seq<Hop>, fields: map<string, Json>, key: string)
    requires Clear(lower, path) && At(v, path) == Some(Obj(fields)) && key in fields && Sensitive(lower, key)
    ensures At(Masked(lower, v), path + [Key(key)]) == Some(Leaf("<redacted>"))
  {
    ClearPathsShow(lower, v, path);
    AtConcat(Masked(lower, v), path, Key(key));
    assert [Key(key)][1..] == [];
  }

  lemma {:induction false} AtConcat(v: Json, path: seq<Hop>, hop: Hop)
    ensures At(v, path + [hop]) == match At(v, path) case None => None case Some(x) => At(x, [hop])
    decreases |path|
  {
    if path == [] {
      assert path + [hop] == [hop];
    } else {
      assert (path + [hop])[1..] == path[1..] + [hop];
      match path[0]
      case Key(k) => if v.Obj? && k in v.fields { AtConcat(v.fields[k], path[1..], hop); }
      case Index(i) => if v.Arr? && i < |v.items| { AtConcat(v.items[i], path[1..], hop); }
    }
  }
}

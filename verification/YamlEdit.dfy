/** internal/yamledit/yamledit.go: a YAML mapping as the flat list of its keys and
    values, edited in place. */
module YamlEdit {
  import opened Text

  /** A parsed document; the entries of a mapping alternate, key and value. */
  datatype Yaml = Scalar(text: string) | Mapping(pairs: seq<Yaml>) | Sequence(items: seq<Yaml>)

  /** node.Value, which only a scalar has. */
  function ValueText(y: Yaml): string {
    if y.Scalar? then y.text else ""
  }

  /** node.Content, whatever the kind of node. */
  function Content(y: Yaml): seq<Yaml> {
    match y
    case Scalar(_) => []
    case Mapping(pairs) => pairs
    case Sequence(items) => items
  }

  // ----- the flat list -----

  predicate KeyAt(c: seq<Yaml>, i: nat, key: string) {
    i + 1 < |c| && ValueText(c[i]) == key
  }

  /** The first even place from `i` on that holds `key`. */
  function Find(c: seq<Yaml>, key: string, i: nat): Option<nat>
    decreases |c| - i
  {
    if i + 1 >= |c| then None
    else if ValueText(c[i]) == key then Some(i)
    else Find(c, key, i + 2)
  }

  function GetIn(c: seq<Yaml>, key: string): Option<Yaml> {
    match Find(c, key, 0)
    case None => None
    case Some(i) => if i + 1 < |c| then Some(c[i + 1]) else None
  }

  function SetIn(c: seq<Yaml>, key: string, v: Yaml): seq<Yaml> {
    match Find(c, key, 0)
    case None => c + [Scalar(key), v]
    case Some(i) => if i + 1 < |c| then c[i + 1 := v] else c
  }

  function DeleteIn(c: seq<Yaml>, key: string): seq<Yaml> {
    match Find(c, key, 0)
    case None => c
    case Some(i) => if i + 1 < |c| then Without(c, i) else c
  }

  /** All but the entry at `i`. */
  function Without(c: seq<Yaml>, i: nat): seq<Yaml>
    requires i + 1 < |c|
  {
    c[..i] + c[i + 2..]
  }

  lemma {:induction false} FindIs(c: seq<Yaml>, key: string, i: nat)
    ensures var r := Find(c, key, i);
            r.Some? ==> i <= r.value && (r.value - i) % 2 == 0 && KeyAt(c, r.value, key)
                        && forall j :: 0 <= j && i + 2 * j < r.value ==> !KeyAt(c, i + 2 * j, key)
    ensures Find(c, key, i).None? ==> forall j :: 0 <= j ==> !KeyAt(c, i + 2 * j, key)
    decreases |c| - i
  {
    if i + 1 < |c| && ValueText(c[i]) != key {
      FindIs(c, key, i + 2);
      var r := Find(c, key, i + 2);
      forall j | 0 <= j && (r.Some? ==> i + 2 * j < r.value) ensures !KeyAt(c, i + 2 * j, key) {
        if j > 0 { assert i + 2 * j == (i + 2) + 2 * (j - 1); }
      }
    }
  }

  lemma {:induction false} FindBound(c: seq<Yaml>, key: string, i: nat)
    ensures Find(c, key, i).Some? ==> Find(c, key, i).value + 1 < |c|
    decreases |c| - i
  {
    if i + 1 < |c| && ValueText(c[i]) != key {
      FindBound(c, key, i + 2);
    }
  }

  // ----- the methods -----

  class Node {
    var content: seq<Yaml>

    constructor (content: seq<Yaml>)
      ensures this.content == content
    {
      this.content := content;
    }

    method MapGet(key: string) returns (v: Option<Yaml>)
      ensures v == GetIn(content, key)
    {
      var i := 0;
      while i + 1 < |content|
        invariant Find(content, key, 0) == Find(content, key, i)
      {
        if ValueText(content[i]) == key {
          return Some(content[i + 1]);
        }
        i := i + 2;
      }
      return None;
    }

    method MapSet(key: string, value: Yaml)
      modifies this
      ensures content == SetIn(old(content), key, value)
    {
      var i := 0;
      while i + 1 < |content|
        invariant content == old(content) && Find(content, key, 0) == Find(content, key, i)
      {
        if ValueText(content[i]) == key {
          content := content[i + 1 := value];
          return;
        }
        i := i + 2;
      }
      content := content + [Scalar(key), value];
    }

    method MapDelete(key: string) returns (found: bool)
      modifies this
      ensures content == DeleteIn(old(content), key) && (found <==> GetIn(old(content), key).Some?)
    {
      var i := 0;
      while i + 1 < |content|
        invariant content == old(content) && Find(content, key, 0) == Find(content, key, i)
      {
        if ValueText(content[i]) == key {
          content := content[..i] + content[i + 2..];
          return true;
        }
        i := i + 2;
      }
      return false;
    }
  }

  // ----- the map it stands for -----

  /** Reading front to back, the first of equal keys counts. */
  function Abs(c: seq<Yaml>): map<string, Yaml>
    decreases |c|
  {
    if |c| < 2 then map[] else Abs(c[2..])[ValueText(c[0]) := c[1]]
  }

  function Keys(c: seq<Yaml>): seq<string>
    decreases |c|
  {
    if |c| < 2 then [] else [ValueText(c[0])] + Keys(c[2..])
  }

  /** How often a key occurs. */
  function Count(c: seq<Yaml>, key: string): nat
    decreases |c|
  {
    if |c| < 2 then 0 else (if ValueText(c[0]) == key then 1 else 0) + Count(c[2..], key)
  }

  ghost predicate Unique(c: seq<Yaml>) {
    |c| % 2 == 0 && forall key :: Count(c, key) <= 1
  }

  function Rest(names: seq<string>, key: string): seq<string> {
    if names == [] then [] else (if names[0] == key then [] else [names[0]]) + Rest(names[1..], key)
  }

  /** Moving on by one entry. */
  lemma {:induction false} FindTail(c: seq<Yaml>, key: string, i: nat)
    requires |c| >= 2
    ensures Find(c, key, i + 2) == match Find(c[2..], key, i) case None => None case Some(j) => Some(j + 2)
    decreases |c| - i
  {
    if i + 1 < |c[2..]| {
      assert c[2..][i] == c[i + 2];
      FindTail(c, key, i + 2);
    }
  }

  lemma SetTail(c: seq<Yaml>, key: string, v: Yaml)
    requires |c| >= 2
    ensures SetIn(c, key, v) == if ValueText(c[0]) == key then [c[0], v] + c[2..] else [c[0], c[1]] + SetIn(c[2..], key, v)
  {
    FindTail(c, key, 0);
    assert c == [c[0], c[1]] + c[2..];
    FindBound(c[2..], key, 0);
  }

  lemma DeleteAt(c: seq<Yaml>, key: string, i: nat)
    requires Find(c, key, 0) == Some(i)
    ensures i + 1 < |c| && DeleteIn(c, key) == Without(c, i)
  {
    FindBound(c, key, 0);
  }

  lemma DeleteTail(c: seq<Yaml>, key: string)
    requires |c| >= 2
    ensures DeleteIn(c, key) == if ValueText(c[0]) == key then c[2..] else [c[0], c[1]] + DeleteIn(c[2..], key)
  {
    var tail := c[2..];
    FindTail(c, key, 0);
    if ValueText(c[0]) == key {
      DeleteAt(c, key, 0);
      assert Without(c, 0) == tail;
    } else if Find(tail, key, 0).Some? {
      var i := Find(tail, key, 0).value;
      var j := i + 2;
      DeleteAt(c, key, j);
      DeleteAt(tail, key, i);
      DropFromTail(c, i, j);
    } else {
      assert c == [c[0], c[1]] + tail;
    }
  }

  lemma DropFromTail(c: seq<Yaml>, i: nat, j: nat)
    requires j == i + 2 && j + 1 < |c|
    ensures Without(c, j) == [c[0], c[1]] + Without(c[2..], i)
  {
    assert c[..j] == [c[0], c[1]] + c[2..][..i];
    assert c[j + 2..] == c[2..][i + 2..];
  }

  lemma PairFirst(a: Yaml, b: Yaml, c: seq<Yaml>)
    ensures Abs([a, b] + c) == Abs(c)[ValueText(a) := b]
    ensures Keys([a, b] + c) == [ValueText(a)] + Keys(c)
  {
    assert ([a, b] + c)[2..] == c;
  }

  lemma CountFirst(a: Yaml, b: Yaml, c: seq<Yaml>, key: string)
    ensures Count([a, b] + c, key) == (if ValueText(a) == key then 1 else 0) + Count(c, key)
  {
    assert ([a, b] + c)[2..] == c;
  }

  lemma {:induction false} GetIsLookup(c: seq<Yaml>, key: string)
    ensures GetIn(c, key) == if key in Abs(c) then Some(Abs(c)[key]) else None
    decreases |c|
  {
    if |c| >= 2 {
      GetIsLookup(c[2..], key);
      FindTail(c, key, 0);
      FindBound(c[2..], key, 0);
    }
  }

  /** MapSet is assignment in the map; all other entries keep value and order. */
  lemma {:induction false} SetIsUpdate(c: seq<Yaml>, key: string, v: Yaml)
    requires |c| % 2 == 0
    ensures Abs(SetIn(c, key, v)) == Abs(c)[key := v]
    ensures Rest(Keys(SetIn(c, key, v)), key) == Rest(Keys(c), key)
    decreases |c|
  {
    if |c| < 2 {
      assert c == [];
      SetInEmpty(key, v);
    } else {
      var tail := c[2..];
      SetIsUpdate(tail, key, v);
      SetTail(c, key, v);
      PairFirst(c[0], v, tail);
      PairFirst(c[0], c[1], SetIn(tail, key, v));
      RestCons(ValueText(c[0]), Keys(tail), key);
      RestCons(ValueText(c[0]), Keys(SetIn(tail, key, v)), key);
    }
  }

  lemma SetInEmpty(key: string, v: Yaml)
    ensures SetIn([], key, v) == [Scalar(key), v]
    ensures Abs([Scalar(key), v]) == map[key := v] && Keys([Scalar(key), v]) == [key]
    ensures Rest([key], key) == []
  {
    assert [] + [Scalar(key), v] == [Scalar(key), v] + [] == [Scalar(key), v];
    PairFirst(Scalar(key), v, []);
    RestCons(key, [], key);
  }

  lemma {:induction false} SetCount(c: seq<Yaml>, key: string, v: Yaml, k: string)
    requires |c| % 2 == 0
    ensures Count(SetIn(c, key, v), k) == if k == key && Count(c, k) == 0 then 1 else Count(c, k)
    decreases |c|
  {
    if |c| < 2 {
      assert c == [];
      assert [] + [Scalar(key), v] == [Scalar(key), v] + [];
      CountFirst(Scalar(key), v, [], k);
    } else {
      SetCount(c[2..], key, v, k);
      SetTail(c, key, v);
      CountFirst(c[0], v, c[2..], k);
      CountFirst(c[0], c[1], SetIn(c[2..], key, v), k);
    }
  }

  lemma RestCons(n: string, names: seq<string>, key: string)
    ensures Rest([n] + names, key) == (if n == key then [] else [n]) + Rest(names, key)
  {
    assert ([n] + names)[1..] == names;
  }

  /** MapDelete keeps all entries of other keys, in order. */
  lemma {:induction false} DeleteKeepsOthers(c: seq<Yaml>, key: string, k: string)
    requires |c| % 2 == 0 && k != key
    ensures Rest(Keys(DeleteIn(c, key)), key) == Rest(Keys(c), key)
    ensures (k in Abs(DeleteIn(c, key)) <==> k in Abs(c)) && (k in Abs(c) ==> Abs(DeleteIn(c, key))[k] == Abs(c)[k])
    decreases |c|
  {
    if |c| >= 2 {
      var tail := c[2..];
      DeleteKeepsOthers(tail, key, k);
      DeleteTail(c, key);
      PairFirst(c[0], c[1], DeleteIn(tail, key));
      RestCons(ValueText(c[0]), Keys(tail), key);
      RestCons(ValueText(c[0]), Keys(DeleteIn(tail, key)), key);
    }
  }

  /** Of equal keys it drops one. */
  lemma {:induction false} DeleteCount(c: seq<Yaml>, key: string, k: string)
    ensures Count(DeleteIn(c, key), k) == if k == key && Count(c, k) > 0 then Count(c, k) - 1 else Count(c, k)
    decreases |c|
  {
    if |c| >= 2 {
      DeleteCount(c[2..], key, k);
      DeleteTail(c, key);
      CountFirst(c[0], c[1], DeleteIn(c[2..], key), k);
    }
  }

  lemma {:induction false} CountIsMembership(c: seq<Yaml>, key: string)
    ensures Count(c, key) > 0 <==> key in Abs(c)
    decreases |c|
  {
    if |c| >= 2 {
      CountIsMembership(c[2..], key);
    }
  }

  /** MapDelete is removal from the map exactly when the key occurs at most once. */
  lemma DeleteIsRemoval(c: seq<Yaml>, key: string)
    requires |c| % 2 == 0
    ensures Abs(DeleteIn(c, key)) == Abs(c) - {key} <==> Count(c, key) <= 1
  {
    var after := Abs(DeleteIn(c, key));
    DeleteCount(c, key, key);
    CountIsMembership(DeleteIn(c, key), key);
    CountIsMembership(c, key);
    forall k | k != key ensures (k in after <==> k in Abs(c)) && (k in Abs(c) ==> after[k] == Abs(c)[k]) {
      DeleteKeepsOthers(c, key, k);
    }
  }

  lemma SameParity(n: nat, m: nat)
    requires m == n || m == n + 2 || m + 2 == n
    ensures n % 2 == 0 <==> m % 2 == 0
  {
  }

  lemma Lengths(c: seq<Yaml>, key: string, v: Yaml)
    ensures |SetIn(c, key, v)| == |c| || |SetIn(c, key, v)| == |c| + 2
    ensures |DeleteIn(c, key)| == |c| || |DeleteIn(c, key)| == |c| - 2
  {
  }

  /** The edits keep keys unique. */
  lemma EditsKeepUnique(c: seq<Yaml>, key: string, v: Yaml)
    requires Unique(c)
    ensures Unique(SetIn(c, key, v)) && Unique(DeleteIn(c, key))
  {
    Lengths(c, key, v);
    SameParity(|c|, |SetIn(c, key, v)|);
    SameParity(|c|, |DeleteIn(c, key)|);
    forall k ensures Count(SetIn(c, key, v), k) <= 1 {
      SetCount(c, key, v, k);
    }
    forall k ensures Count(DeleteIn(c, key), k) <= 1 {
      DeleteCount(c, key, k);
    }
  }
}

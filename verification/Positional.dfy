/** cmd/linuxctl/resolver.go: which argument of a tool takes which word of the
    command line. */
module Positional {
  import opened Text

  /** An entry of the schema's "required" list, which may hold anything. */
  datatype Req = Name(name: string) | NotAString

  /** `typ` is "" for a property without a type. */
  datatype Prop = Prop(typ: string, hasEnum: bool)

  datatype Schema = Schema(props: map<string, Prop>, required: seq<Req>)

  /** `Words` is what toArray makes of these words. */
  datatype Value = Int(n: int) | Str(s: string) | Words(words: seq<string>) | Given

  /** positionalFieldPriority. */
  const PRIORITY: seq<string> :=
    ["path", "pid", "device", "host", "url", "key", "value", "service", "name", "user", "content"]

  // ----- strconv.Atoi -----

  predicate IsDigit(c: char) {
    '0' <= c <= '9'
  }

  function Digits(s: string): Option<nat> {
    if s == "" then Some(0)
    else if !IsDigit(s[|s| - 1]) then None
    else
      match Digits(s[..|s| - 1])
      case None => None
      case Some(n) => Some(n * 10 + (s[|s| - 1] as int - '0' as int))
  }

  function Atoi(s: string): Option<int> {
    var signed := s != "" && (s[0] == '+' || s[0] == '-');
    var body := if signed then s[1..] else s;
    match if body == "" then None else Digits(body)
    case None => None
    case Some(m) =>
      var n: int := if signed && s[0] == '-' then -(m as int) else m;
      if -0x8000_0000_0000_0000 <= n < 0x8000_0000_0000_0000 then Some(n) else None
  }

  /** The value a single word gives a property of this type. */
  function ValueOf(typ: string, word: string): Value {
    if typ == "integer" && Atoi(word).Some? then Int(Atoi(word).value) else Str(word)
  }

  function TypeOf(schema: Schema, field: string): string {
    if field in schema.props then schema.props[field].typ else ""
  }

  // ----- reference: the slots a tool offers, before any word is seen -----

  /** `takesRest` is a required array, which takes every remaining word. */
  datatype Slot = Slot(field: string, takesRest: bool)

  predicate IsName(r: Req) {
    r.Name? && r.name != ""
  }

  predicate UnsetRequired(schema: Schema, taken: set<string>) {
    exists i :: 0 <= i < |schema.required| && schema.required[i].Name? && schema.required[i].name !in taken
  }

  /** Slots among the common names, from the i-th on. */
  function CommonSlots(schema: Schema, taken: set<string>, i: nat): seq<Slot>
    requires i <= |PRIORITY|
    decreases |PRIORITY| - i
  {
    if i == |PRIORITY| then []
    else
      var f := PRIORITY[i];
      if f !in schema.props || f in taken || (f == "user" && UnsetRequired(schema, taken))
      then CommonSlots(schema, taken, i + 1)
      else [Slot(f, false)] + CommonSlots(schema, taken + {f}, i + 1)
  }

  /** The fields taken once the common names from the i-th on are filled. */
  function TakenAfter(schema: Schema, taken: set<string>, i: nat): set<string>
    requires i <= |PRIORITY|
    decreases |PRIORITY| - i
  {
    if i == |PRIORITY| then taken
    else
      var f := PRIORITY[i];
      TakenAfter(schema, if f !in schema.props || (f == "user" && UnsetRequired(schema, taken)) then taken else taken + {f}, i + 1)
  }

  /** Slots among the required fields, from the j-th on. */
  function RequiredSlots(schema: Schema, taken: set<string>, j: nat): seq<Slot>
    requires j <= |schema.required|
    decreases |schema.required| - j
  {
    if j == |schema.required| || !IsName(schema.required[j]) then []
    else
      var f := schema.required[j].name;
      if f in taken then RequiredSlots(schema, taken, j + 1)
      else if TypeOf(schema, f) == "array" then [Slot(f, true)]
      else [Slot(f, false)] + RequiredSlots(schema, taken + {f}, j + 1)
  }

  function Slots(schema: Schema, taken: set<string>): seq<Slot> {
    CommonSlots(schema, taken, 0) + RequiredSlots(schema, TakenAfter(schema, taken, 0), 0)
  }

  /** The words dealt out to the slots in order; what is left over. */
  datatype Dealt = Dealt(args: map<string, Value>, left: seq<string>)

  function Deal(schema: Schema, args: map<string, Value>, slots: seq<Slot>, words: seq<string>): Dealt
    decreases |slots|
  {
    if slots == [] || words == [] then Dealt(args, words)
    else
      var f := slots[0].field;
      if slots[0].takesRest then Dealt(args[f := Words(words)], [])
      else Deal(schema, args[f := ValueOf(TypeOf(schema, f), words[0])], slots[1..], words[1..])
  }

  // ----- mapPositionalArgs -----

  /** The map of arguments, filled in place. */
  class Args {
    var values: map<string, Value>

    constructor (values: map<string, Value>)
      ensures this.values == values
    {
      this.values := values;
    }
  }

  method HasUnsetRequired(schema: Schema, args: Args) returns (yes: bool)
    ensures yes <==> UnsetRequired(schema, args.values.Keys)
  {
    for i := 0 to |schema.required|
      invariant forall k :: 0 <= k < i ==> !(schema.required[k].Name? && schema.required[k].name !in args.values.Keys)
    {
      if schema.required[i].Name? && schema.required[i].name !in args.values {
        return true;
      }
    }
    return false;
  }

  lemma NextCommon(schema: Schema, taken: set<string>, i: nat)
    requires i < |PRIORITY|
    ensures var f := PRIORITY[i];
            if f !in schema.props || f in taken || (f == "user" && UnsetRequired(schema, taken))
            then CommonSlots(schema, taken, i) == CommonSlots(schema, taken, i + 1)
                 && TakenAfter(schema, taken, i) == TakenAfter(schema, taken, i + 1)
            else CommonSlots(schema, taken, i) == [Slot(f, false)] + CommonSlots(schema, taken + {f}, i + 1)
                 && TakenAfter(schema, taken, i) == TakenAfter(schema, taken + {f}, i + 1)
  {
    if PRIORITY[i] in taken { assert taken + {PRIORITY[i]} == taken; }
  }

  /** What is still to be dealt: the rest of the common names, then the required. */
  function Ahead(schema: Schema, taken: set<string>, i: nat): seq<Slot>
    requires i <= |PRIORITY|
  {
    CommonSlots(schema, taken, i) + RequiredSlots(schema, TakenAfter(schema, taken, i), 0)
  }

  lemma AheadStep(schema: Schema, taken: set<string>, i: nat)
    requires i < |PRIORITY|
    ensures var f := PRIORITY[i];
            Ahead(schema, taken, i) ==
              if f !in schema.props || f in taken || (f == "user" && UnsetRequired(schema, taken)) then Ahead(schema, taken, i + 1)
              else [Slot(f, false)] + Ahead(schema, taken + {f}, i + 1)
  {
    NextCommon(schema, taken, i);
    var f := PRIORITY[i];
    var more, req := CommonSlots(schema, taken + {f}, i + 1), RequiredSlots(schema, TakenAfter(schema, taken + {f}, i + 1), 0);
    assert [Slot(f, false)] + more + req == [Slot(f, false)] + (more + req);
  }

  lemma DealOne(schema: Schema, args: map<string, Value>, slot: Slot, rest: seq<Slot>, words: seq<string>)
    requires words != []
    ensures Deal(schema, args, [slot] + rest, words) ==
              if slot.takesRest then Dealt(args[slot.field := Words(words)], [])
              else Deal(schema, args[slot.field := ValueOf(TypeOf(schema, slot.field), words[0])], rest, words[1..])
  {
    assert ([slot] + rest)[1..] == rest;
  }

  /** A single word for a field: a number if the field is one and the word reads
      as one. */
  method SetOne(schema: Schema, args: Args, field: string, word: string)
    modifies args
    ensures args.values == old(args.values)[field := ValueOf(TypeOf(schema, field), word)]
    ensures args.values.Keys == old(args.values).Keys + {field}
  {
    if TypeOf(schema, field) == "integer" && Atoi(word).Some? {
      args.values := args.values[field := Int(Atoi(word).value)];
    } else {
      args.values := args.values[field := Str(word)];
    }
  }

  /** One common name, while there are words. */
  method TakeCommon(schema: Schema, args: Args, i: nat, words: seq<string>) returns (positional: seq<string>)
    requires i < |PRIORITY| && words != []
    modifies args
    ensures Deal(schema, args.values, Ahead(schema, args.values.Keys, i + 1), positional)
         == Deal(schema, old(args.values), Ahead(schema, old(args.values).Keys, i), words)
  {
    var field := PRIORITY[i];
    AheadStep(schema, args.values.Keys, i);
    if field !in schema.props || field in args.values {
      return words;
    }
    if field == "user" {
      var unset := HasUnsetRequired(schema, args);
      if unset {
        return words;
      }
    }
    DealOne(schema, args.values, Slot(field, false), Ahead(schema, args.values.Keys + {field}, i + 1), words);
    SetOne(schema, args, field, words[0]);
    return words[1..];
  }

  lemma EndOfCommon(schema: Schema, args: map<string, Value>, i: nat, words: seq<string>)
    requires i <= |PRIORITY| && (words == [] || i == |PRIORITY|)
    ensures Deal(schema, args, RequiredSlots(schema, args.Keys, 0), words) == Deal(schema, args, Ahead(schema, args.Keys, i), words)
  {
    if i == |PRIORITY| {
      assert CommonSlots(schema, args.Keys, i) == [] && TakenAfter(schema, args.Keys, i) == args.Keys;
      assert [] + RequiredSlots(schema, args.Keys, 0) == RequiredSlots(schema, args.Keys, 0);
    }
  }

  /** The first loop: the common names in their order of precedence. */
  method FillCommon(schema: Schema, args: Args, words: seq<string>) returns (positional: seq<string>)
    modifies args
    ensures Deal(schema, args.values, RequiredSlots(schema, args.values.Keys, 0), positional)
         == Deal(schema, old(args.values), Ahead(schema, old(args.values).Keys, 0), words)
  {
    positional := words;
    ghost var goal := Deal(schema, args.values, Ahead(schema, args.values.Keys, 0), words);
    var i := 0;
    while i < |PRIORITY|
      invariant i <= |PRIORITY| && Deal(schema, args.values, Ahead(schema, args.values.Keys, i), positional) == goal
    {
      if |positional| == 0 {
        break;
      }
      positional := TakeCommon(schema, args, i, positional);
      i := i + 1;
    }
    EndOfCommon(schema, args.values, i, positional);
  }

  /** mapPositionalArgs; without a schema nothing is assigned. */
  method MapPositionalArgs(schema: Option<Schema>, args: Args, words: seq<string>) returns (left: seq<string>)
    modifies args
    ensures Dealt(args.values, left) == if schema.None? then Dealt(old(args.values), words)
                                        else Deal(schema.value, old(args.values), Slots(schema.value, old(args.values).Keys), words)
  {
    if |words| == 0 || schema.None? {
      return words;
    }
    left := FillCommon(schema.value, args, words);
    left := FillRequired(schema.value, args, left);
  }

  lemma NextRequired(schema: Schema, taken: set<string>, j: nat)
    requires j < |schema.required| && schema.required[j].Name? && schema.required[j].name != ""
    ensures var f := schema.required[j].name;
            RequiredSlots(schema, taken, j) ==
              if f in taken then RequiredSlots(schema, taken, j + 1)
              else if TypeOf(schema, f) == "array" then [Slot(f, true)] + []
              else [Slot(f, false)] + RequiredSlots(schema, taken + {f}, j + 1)
  {
  }

  /** The second loop: required fields still unset, in the schema's order. */
  method FillRequired(schema: Schema, args: Args, words: seq<string>) returns (positional: seq<string>)
    modifies args
    ensures Dealt(args.values, positional) == Deal(schema, old(args.values), RequiredSlots(schema, old(args.values).Keys, 0), words)
  {
    positional := words;
    ghost var goal := Deal(schema, args.values, RequiredSlots(schema, args.values.Keys, 0), words);
    for j := 0 to |schema.required|
      invariant Deal(schema, args.values, RequiredSlots(schema, args.values.Keys, j), positional) == goal
    {
      var field := if schema.required[j].Name? then schema.required[j].name else "";
      if |positional| == 0 || field == "" {
        break;
      }
      NextRequired(schema, args.values.Keys, j);
      if field in args.values {
        continue;
      }
      if TypeOf(schema, field) == "array" {
        DealOne(schema, args.values, Slot(field, true), [], positional);
        args.values := args.values[field := Words(positional)];
        return [];
      }
      DealOne(schema, args.values, Slot(field, false), RequiredSlots(schema, args.values.Keys + {field}, j + 1), positional);
      SetOne(schema, args, field, positional[0]);
      positional := positional[1..];
    }
  }

  // ----- no argument is overwritten or filled twice -----

  function Fields(slots: seq<Slot>): set<string> {
    set i | 0 <= i < |slots| :: slots[i].field
  }

  /** Each slot is for a field that is neither taken nor an earlier slot's. */
  predicate Fresh(slots: seq<Slot>, taken: set<string>) {
    slots == [] || (slots[0].field !in taken && Fresh(slots[1..], taken + {slots[0].field}))
  }

  lemma FieldsCons(slot: Slot, rest: seq<Slot>)
    ensures Fields([slot] + rest) == {slot.field} + Fields(rest)
  {
    var all := [slot] + rest;
    forall f ensures f in Fields(all) <==> f in {slot.field} + Fields(rest) {
      if f in Fields(rest) {
        var i :| 0 <= i < |rest| && rest[i].field == f;
        assert all[i + 1].field == f;
      }
      if f == slot.field { assert all[0].field == f; }
      if f in Fields(all) {
        var i :| 0 <= i < |all| && all[i].field == f;
        assert i > 0 ==> rest[i - 1].field == f;
      }
    }
  }

  lemma {:induction false} FreshConcat(a: seq<Slot>, b: seq<Slot>, taken: set<string>)
    requires Fresh(a, taken) && Fresh(b, taken + Fields(a))
    ensures Fresh(a + b, taken)
  {
    if a == [] {
      assert a + b == b && taken + Fields(a) == taken;
    } else {
      assert a == [a[0]] + a[1..] && (a + b)[1..] == a[1..] + b;
      FieldsCons(a[0], a[1..]);
      assert taken + Fields(a) == taken + {a[0].field} + Fields(a[1..]);
      FreshConcat(a[1..], b, taken + {a[0].field});
    }
  }

  lemma {:induction false} CommonAreFresh(schema: Schema, taken: set<string>, i: nat)
    requires i <= |PRIORITY|
    ensures Fresh(CommonSlots(schema, taken, i), taken)
    ensures TakenAfter(schema, taken, i) == taken + Fields(CommonSlots(schema, taken, i))
    decreases |PRIORITY| - i
  {
    if i < |PRIORITY| {
      var f := PRIORITY[i];
      NextCommon(schema, taken, i);
      CommonAreFresh(schema, taken, i + 1);
      CommonAreFresh(schema, taken + {f}, i + 1);
      var rest := CommonSlots(schema, taken + {f}, i + 1);
      assert ([Slot(f, false)] + rest)[1..] == rest;
      FieldsCons(Slot(f, false), rest);
      assert (taken + {f}) + Fields(rest) == taken + ({f} + Fields(rest));
    }
  }

  lemma {:induction false} RequiredAreFresh(schema: Schema, taken: set<string>, j: nat)
    requires j <= |schema.required|
    ensures Fresh(RequiredSlots(schema, taken, j), taken)
    decreases |schema.required| - j
  {
    if j < |schema.required| && schema.required[j].Name? && schema.required[j].name != "" {
      var f := schema.required[j].name;
      RequiredAreFresh(schema, taken, j + 1);
      RequiredAreFresh(schema, taken + {f}, j + 1);
      NextRequired(schema, taken, j);
      var rest := RequiredSlots(schema, taken + {f}, j + 1);
      assert ([Slot(f, false)] + rest)[1..] == rest && ([Slot(f, true)] + [])[1..] == [];
    }
  }

  lemma SlotsAreFresh(schema: Schema, taken: set<string>)
    ensures Fresh(Slots(schema, taken), taken)
  {
    CommonAreFresh(schema, taken, 0);
    RequiredAreFresh(schema, TakenAfter(schema, taken, 0), 0);
    FreshConcat(CommonSlots(schema, taken, 0), RequiredSlots(schema, TakenAfter(schema, taken, 0), 0), taken);
  }

  // ----- every word is used once or left over -----

  /** Which slot took which words. */
  datatype Taken = Taken(slot: Slot, words: seq<string>)

  function Assigned(slots: seq<Slot>, words: seq<string>): seq<Taken>
    decreases |slots|
  {
    if slots == [] || words == [] then []
    else if slots[0].takesRest then [Taken(slots[0], words)]
    else [Taken(slots[0], [words[0]])] + Assigned(slots[1..], words[1..])
  }

  function AllWords(ts: seq<Taken>): seq<string> {
    if ts == [] then [] else ts[0].words + AllWords(ts[1..])
  }

  lemma {:induction false} WordsAreConserved(schema: Schema, args: map<string, Value>, slots: seq<Slot>, words: seq<string>)
    ensures AllWords(Assigned(slots, words)) + Deal(schema, args, slots, words).left == words
    decreases |slots|
  {
    if slots != [] && words != [] {
      if slots[0].takesRest {
        assert [Taken(slots[0], words)][1..] == [];
      } else {
        var f := slots[0].field;
        WordsAreConserved(schema, args[f := ValueOf(TypeOf(schema, f), words[0])], slots[1..], words[1..]);
        var rest := Assigned(slots[1..], words[1..]);
        assert ([Taken(slots[0], [words[0]])] + rest)[1..] == rest;
        assert words == [words[0]] + words[1..];
      }
    }
  }

  /** The value a slot gets for its words. */
  function Result(schema: Schema, t: Taken): Value
    requires t.words != []
  {
    if t.slot.takesRest then Words(t.words) else ValueOf(TypeOf(schema, t.slot.field), t.words[0])
  }

  ghost predicate Holds(schema: Schema, args: map<string, Value>, t: Taken) {
    t.words != [] && t.slot.field in args && args[t.slot.field] == Result(schema, t)
  }

  /** Every slot that took words holds their value in the end, and arguments
      that were set before stay as they were. */
  lemma {:induction false} AssignedValuesStand(schema: Schema, args: map<string, Value>, slots: seq<Slot>, words: seq<string>)
    requires Fresh(slots, args.Keys)
    ensures var after := Deal(schema, args, slots, words).args;
            && (forall t :: t in Assigned(slots, words) ==> Holds(schema, after, t))
            && (forall f :: f in args ==> f in after && after[f] == args[f])
            && (forall f :: f in after && f !in args ==> exists t :: t in Assigned(slots, words) && t.slot.field == f)
    decreases |slots|
  {
    if slots != [] && words != [] {
      var f := slots[0].field;
      if slots[0].takesRest {
        assert [Taken(slots[0], words)][0] == Taken(slots[0], words);
      } else {
        var args' := args[f := ValueOf(TypeOf(schema, f), words[0])];
        assert args'.Keys == args.Keys + {f};
        AssignedValuesStand(schema, args', slots[1..], words[1..]);
        var first, rest := Taken(slots[0], [words[0]]), Assigned(slots[1..], words[1..]);
        var all := [first] + rest;
        var after := Deal(schema, args', slots[1..], words[1..]).args;
        assert Holds(schema, after, first);
        assert all[0] == first;
        forall t ensures t in all <==> t == first || t in rest { }
      }
    }
  }

  // ----- words are left over only when there was nothing to fill -----

  predicate OneWordEach(slots: seq<Slot>) {
    forall i :: 0 <= i < |slots| ==> !slots[i].takesRest
  }

  lemma FirstTakesOne(f: string, takesRest: bool, rest: seq<Slot>, slots: seq<Slot>)
    requires OneWordEach(slots) && slots == if takesRest then [Slot(f, true)] + [] else [Slot(f, false)] + rest
    ensures slots == [Slot(f, false)] + rest
  {
    assert slots[0] == Slot(f, takesRest);
  }

  lemma OneWordEachOf(a: seq<Slot>, b: seq<Slot>)
    requires OneWordEach(a + b)
    ensures OneWordEach(b)
  {
    forall i | 0 <= i < |b| ensures !b[i].takesRest {
      assert (a + b)[|a| + i] == b[i];
    }
  }

  lemma {:induction false} LeftOverFillsAll(schema: Schema, args: map<string, Value>, slots: seq<Slot>, words: seq<string>)
    requires Deal(schema, args, slots, words).left != []
    ensures args.Keys + Fields(slots) <= Deal(schema, args, slots, words).args.Keys
    ensures OneWordEach(slots)
    decreases |slots|
  {
    if slots != [] {
      var f := slots[0].field;
      LeftOverFillsAll(schema, args[f := ValueOf(TypeOf(schema, f), words[0])], slots[1..], words[1..]);
      assert slots == [slots[0]] + slots[1..];
      FieldsCons(slots[0], slots[1..]);
      forall i | 0 <= i < |slots| ensures !slots[i].takesRest {
        if i > 0 { assert slots[1..][i - 1] == slots[i]; }
      }
    } else {
      assert Fields(slots) == {};
    }
  }

  lemma {:induction false} CommonTaken(schema: Schema, taken: set<string>, i: nat, k: nat)
    requires i <= k < |PRIORITY| && PRIORITY[k] in schema.props && PRIORITY[k] != "user"
    ensures PRIORITY[k] in TakenAfter(schema, taken, i)
    decreases |PRIORITY| - i
  {
    NextCommon(schema, taken, i);
    CommonAreFresh(schema, taken, i + 1);
    CommonAreFresh(schema, taken + {PRIORITY[i]}, i + 1);
    if i < k {
      CommonTaken(schema, taken, i + 1, k);
      CommonTaken(schema, taken + {PRIORITY[i]}, i + 1, k);
    }
  }

  /** Where the names at the head of the list end. */
  function NamesEnd(required: seq<Req>): (end: nat)
    ensures end <= |required| && (end < |required| ==> !IsName(required[end]))
    ensures forall k :: 0 <= k < end ==> IsName(required[k])
  {
    if required == [] || !IsName(required[0]) then 0 else 1 + NamesEnd(required[1..])
  }

  function HeadNames(required: seq<Req>): set<string> {
    set k | 0 <= k < NamesEnd(required) :: required[k].name
  }

  /** A name that is filled whenever words are left over: it stands at the head
      of the list, or is a common field of the tool but "user". */
  predicate AlwaysFilled(schema: Schema, name: string) {
    name in HeadNames(schema.required) || (name in PRIORITY && name != "user" && name in schema.props)
  }

  /** Every name behind the first entry that is none is filled all the same. */
  predicate NoNameIsLost(schema: Schema) {
    forall k :: NamesEnd(schema.required) <= k < |schema.required| && schema.required[k].Name? ==>
      AlwaysFilled(schema, schema.required[k].name)
  }

  lemma {:induction false} RequiredTaken(schema: Schema, taken: set<string>, j: nat, k: nat)
    requires j <= k < NamesEnd(schema.required)
    requires OneWordEach(RequiredSlots(schema, taken, j))
    ensures schema.required[k].name in taken + Fields(RequiredSlots(schema, taken, j))
    decreases |schema.required| - j
  {
    NextRequired(schema, taken, j);
    var f := schema.required[j].name;
    if f in taken {
      if j < k { RequiredTaken(schema, taken, j + 1, k); }
    } else {
      var rest := RequiredSlots(schema, taken + {f}, j + 1);
      FirstTakesOne(f, TypeOf(schema, f) == "array", rest, RequiredSlots(schema, taken, j));
      FieldsCons(Slot(f, false), rest);
      if j < k {
        OneWordEachOf([Slot(f, false)], rest);
        RequiredTaken(schema, taken + {f}, j + 1, k);
      }
    }
  }

  lemma FieldsConcat(a: seq<Slot>, b: seq<Slot>)
    ensures Fields(a + b) == Fields(a) + Fields(b)
  {
    var all := a + b;
    forall f ensures f in Fields(all) <==> f in Fields(a) + Fields(b) {
      if f in Fields(a) {
        var i :| 0 <= i < |a| && a[i].field == f;
        assert all[i].field == f;
      }
      if f in Fields(b) {
        var i :| 0 <= i < |b| && b[i].field == f;
        assert all[|a| + i].field == f;
      }
      if f in Fields(all) {
        var i :| 0 <= i < |all| && all[i].field == f;
        assert i < |a| ==> a[i].field == f;
        assert i >= |a| ==> b[i - |a|].field == f;
      }
    }
  }

  /** If words are left over, every common field of the tool but "user" is set,
      and so is every name at the head of the required list. */
  lemma NothingLeftToFill(schema: Schema, args: map<string, Value>, words: seq<string>)
    requires Deal(schema, args, Slots(schema, args.Keys), words).left != []
    ensures var after := Deal(schema, args, Slots(schema, args.Keys), words).args;
            && CommonAreSet(schema, after.Keys)
            && HeadNames(schema.required) <= after.Keys
            && (NoNameIsLost(schema) ==> !UnsetRequired(schema, after.Keys))
  {
    var after := Deal(schema, args, Slots(schema, args.Keys), words).args;
    LeftOverFillsAll(schema, args, Slots(schema, args.Keys), words);
    AllFilled(schema, args.Keys, after.Keys);
    if NoNameIsLost(schema) {
      HeadAndCommonSuffice(schema, after.Keys);
    }
  }

  /** The common fields of the tool but "user". */
  predicate CommonAreSet(schema: Schema, taken: set<string>) {
    forall k :: 0 <= k < |PRIORITY| && PRIORITY[k] in schema.props && PRIORITY[k] != "user" ==> PRIORITY[k] in taken
  }

  lemma AllFilled(schema: Schema, taken: set<string>, after: set<string>)
    requires taken + Fields(Slots(schema, taken)) <= after && OneWordEach(Slots(schema, taken))
    ensures CommonAreSet(schema, after) && HeadNames(schema.required) <= after
  {
    var taken' := TakenAfter(schema, taken, 0);
    var common, required := CommonSlots(schema, taken, 0), RequiredSlots(schema, taken', 0);
    FieldsConcat(common, required);
    OneWordEachOf(common, required);
    CommonAreFresh(schema, taken, 0);
    HeadTaken(schema, taken');
    forall k | 0 <= k < |PRIORITY| && PRIORITY[k] in schema.props && PRIORITY[k] != "user" ensures PRIORITY[k] in after {
      CommonTaken(schema, taken, 0, k);
    }
  }

  lemma HeadTaken(schema: Schema, taken: set<string>)
    requires OneWordEach(RequiredSlots(schema, taken, 0))
    ensures HeadNames(schema.required) <= taken + Fields(RequiredSlots(schema, taken, 0))
  {
    forall k | 0 <= k < NamesEnd(schema.required)
      ensures schema.required[k].name in taken + Fields(RequiredSlots(schema, taken, 0))
    {
      RequiredTaken(schema, taken, 0, k);
    }
  }

  lemma HeadAndCommonSuffice(schema: Schema, taken: set<string>)
    requires NoNameIsLost(schema) && HeadNames(schema.required) <= taken
    requires CommonAreSet(schema, taken)
    ensures !UnsetRequired(schema, taken)
  {
    forall i | 0 <= i < |schema.required| && schema.required[i].Name? ensures schema.required[i].name in taken {
      if i < NamesEnd(schema.required) {
        assert schema.required[i].name in HeadNames(schema.required);
      } else {
        assert AlwaysFilled(schema, schema.required[i].name);
      }
    }
  }

  /** Words left over mean that nothing required is unset. */
  predicate NothingRequiredIsUnset(schema: Schema, args: map<string, Value>, words: seq<string>) {
    var dealt := Deal(schema, args, Slots(schema, args.Keys), words);
    dealt.left != [] ==> !UnsetRequired(schema, dealt.args.Keys)
  }

  /** On which schemas words are left over only when every required argument is
      set: the names behind the first entry that is none must be filled without
      the list. */
  lemma LeftOverMeansCompleteIff(schema: Schema)
    ensures NoNameIsLost(schema) <==> forall args, words :: NothingRequiredIsUnset(schema, args, words)
  {
    if NoNameIsLost(schema) {
      forall args, words ensures NothingRequiredIsUnset(schema, args, words) {
        if Deal(schema, args, Slots(schema, args.Keys), words).left != [] {
          NothingLeftToFill(schema, args, words);
        }
      }
    } else {
      var k :| NamesEnd(schema.required) <= k < |schema.required| && schema.required[k].Name?
               && !AlwaysFilled(schema, schema.required[k].name);
      NameIsLost(schema, k, map n | n in HeadNames(schema.required) :: Given, seq(|PRIORITY| + 1, i => ""));
    }
  }

  /** Given all names at the head, and more words than there are common fields,
      a name that is not always filled stays unset. */
  lemma NameIsLost(schema: Schema, k: nat, args: map<string, Value>, words: seq<string>)
    requires k < |schema.required| && schema.required[k].Name? && !AlwaysFilled(schema, schema.required[k].name)
    requires args.Keys == HeadNames(schema.required) && |words| > |PRIORITY|
    ensures !NothingRequiredIsUnset(schema, args, words)
  {
    var name := schema.required[k].name;
    var common, taken := CommonSlots(schema, args.Keys, 0), TakenAfter(schema, args.Keys, 0);
    CommonAreFresh(schema, args.Keys, 0);
    HeadGiven(schema, taken, 0);
    assert common + [] == common;
    CommonSkips(schema, args.Keys, 0, k, name);
    DealFew(schema, args, common, words, |PRIORITY|, name);
  }

  /** With the names at the head set, the required list gives no slot. */
  lemma {:induction false} HeadGiven(schema: Schema, taken: set<string>, j: nat)
    requires HeadNames(schema.required) <= taken && j <= NamesEnd(schema.required)
    ensures RequiredSlots(schema, taken, j) == []
    decreases |schema.required| - j
  {
    if j < NamesEnd(schema.required) {
      assert schema.required[j].name in HeadNames(schema.required);
      HeadGiven(schema, taken, j + 1);
    }
  }

  /** At most `n` slots, for one word each and none for this field. */
  predicate FewWithout(slots: seq<Slot>, n: nat, name: string) {
    |slots| <= n && forall k :: 0 <= k < |slots| ==> !slots[k].takesRest && slots[k].field != name
  }

  lemma FewCons(f: string, rest: seq<Slot>, n: nat, n': nat, name: string)
    requires FewWithout(rest, n, name) && f != name && n' == n + 1
    ensures FewWithout([Slot(f, false)] + rest, n', name)
  {
  }

  lemma FewMore(rest: seq<Slot>, n: nat, n': nat, name: string)
    requires FewWithout(rest, n, name) && n' == n + 1
    ensures FewWithout(rest, n', name)
  {
  }

  /** The common names give at most one slot each, and none for a required name
      that is still unset and no common field but "user". */
  lemma {:induction false} CommonSkips(schema: Schema, taken: set<string>, i: nat, k: nat, name: string)
    requires i <= |PRIORITY| && name !in taken && k < |schema.required| && schema.required[k] == Name(name)
    requires !(name in PRIORITY && name != "user" && name in schema.props)
    ensures FewWithout(CommonSlots(schema, taken, i), |PRIORITY| - i, name)
    decreases |PRIORITY| - i
  {
    if i < |PRIORITY| {
      var f, n, n' := PRIORITY[i], |PRIORITY| - (i + 1), |PRIORITY| - i;
      NextCommon(schema, taken, i);
      if f !in schema.props || f in taken || (f == "user" && UnsetRequired(schema, taken)) {
        var rest := CommonSlots(schema, taken, i + 1);
        assert CommonSlots(schema, taken, i) == rest;
        CommonSkips(schema, taken, i + 1, k, name);
        FewMore(rest, n, n', name);
      } else {
        var rest := CommonSlots(schema, taken + {f}, i + 1);
        assert CommonSlots(schema, taken, i) == [Slot(f, false)] + rest;
        assert UnsetRequired(schema, taken);
        assert f in PRIORITY && f != name;
        CommonSkips(schema, taken + {f}, i + 1, k, name);
        FewCons(f, rest, n, n', name);
      }
    }
  }

  /** More words than slots that take one: words are left, and no other field
      is set. */
  lemma {:induction false} DealFew(schema: Schema, args: map<string, Value>, slots: seq<Slot>, words: seq<string>, n: nat, name: string)
    requires FewWithout(slots, n, name) && n < |words| && name !in args
    ensures Deal(schema, args, slots, words).left != [] && name !in Deal(schema, args, slots, words).args
    decreases |slots|
  {
    if slots != [] {
      var f := slots[0].field;
      DealFew(schema, args[f := ValueOf(TypeOf(schema, f), words[0])], slots[1..], words[1..], n - 1, name);
    }
  }

  /** An entry of "required" that is no name ends the assignment: the argument
      after it is never filled although a word is left over. */
  lemma BadEntryEndsFilling(name: string)
    requires name != "" && name !in PRIORITY
    ensures var schema := Schema(map[name := Prop("", false)], [NotAString, Name(name)]);
            Deal(schema, map[], Slots(schema, {}), ["word"]) == Dealt(map[], ["word"]) && UnsetRequired(schema, {})
  {
    var schema := Schema(map[name := Prop("", false)], [NotAString, Name(name)]);
    NoCommonSlots(schema, {}, 0, name);
    assert schema.required[1].name !in {};
  }

  lemma {:induction false} NoCommonSlots(schema: Schema, taken: set<string>, i: nat, name: string)
    requires i <= |PRIORITY| && schema.props.Keys == {name} && name !in PRIORITY
    ensures CommonSlots(schema, taken, i) == []
    decreases |PRIORITY| - i
  {
    if i < |PRIORITY| {
      assert PRIORITY[i] in PRIORITY;
      NoCommonSlots(schema, taken, i + 1, name);
    }
  }

  // ----- which field comes first, and what a number is -----

  /** The first word goes to the first of these fields that the tool has and that
      is not set; to "user" only when no required argument is missing. */
  lemma FirstWordGoesTo(schema: Schema, args: map<string, Value>, i: nat, word: string, more: seq<string>)
    requires i < 11
    requires var order := ["path", "pid", "device", "host", "url", "key", "value", "service", "name", "user", "content"];
             && order[i] in schema.props && order[i] !in args && (i == 9 ==> !UnsetRequired(schema, args.Keys))
             && forall k :: 0 <= k < i ==> order[k] !in schema.props || order[k] in args || (k == 9 && UnsetRequired(schema, args.Keys))
    ensures var field := ["path", "pid", "device", "host", "url", "key", "value", "service", "name", "user", "content"][i];
            var after := Deal(schema, args, Slots(schema, args.Keys), [word] + more).args;
            && field in after
            && after[field] == if schema.props[field].typ == "integer" && Atoi(word).Some? then Int(Atoi(word).value) else Str(word)
  {
    var field := PRIORITY[i];
    SkipTo(schema, args.Keys, 0, i);
    NextCommon(schema, args.Keys, i);
    assert Slots(schema, args.Keys)[0] == Slot(field, false);
    SlotsAreFresh(schema, args.Keys);
    HeadTakes(schema, args, Slots(schema, args.Keys), field, [word] + more);
  }

  lemma HeadTakes(schema: Schema, args: map<string, Value>, slots: seq<Slot>, field: string, words: seq<string>)
    requires Fresh(slots, args.Keys) && slots != [] && slots[0] == Slot(field, false) && words != []
    ensures var after := Deal(schema, args, slots, words).args; field in after && after[field] == ValueOf(TypeOf(schema, field), words[0])
  {
    var first := Taken(slots[0], [words[0]]);
    AssignedValuesStand(schema, args, slots, words);
    assert Assigned(slots, words)[0] == first;
    assert first in Assigned(slots, words);
    assert Holds(schema, Deal(schema, args, slots, words).args, first);
  }

  /** With no common field open, the first required argument that is not set takes
      the first word; an array takes all of them. */
  lemma FirstWordToRequired(schema: Schema, args: map<string, Value>, j: nat, word: string, more: seq<string>)
    requires forall k :: 0 <= k < |PRIORITY| ==> PRIORITY[k] !in schema.props || PRIORITY[k] in args || (k == 9 && UnsetRequired(schema, args.Keys))
    requires j < |schema.required| && IsName(schema.required[j]) && schema.required[j].name !in args
    requires forall k :: 0 <= k < j ==> IsName(schema.required[k]) && schema.required[k].name in args
    ensures var field, dealt := schema.required[j].name, Deal(schema, args, Slots(schema, args.Keys), [word] + more);
            field in dealt.args &&
            if field in schema.props && schema.props[field].typ == "array"
            then dealt.args[field] == Words([word] + more) && dealt.left == []
            else dealt.args[field] == if field in schema.props && schema.props[field].typ == "integer" && Atoi(word).Some?
                                      then Int(Atoi(word).value) else Str(word)
  {
    var field := schema.required[j].name;
    SkipTo(schema, args.Keys, 0, |PRIORITY|);
    CommonAreFresh(schema, args.Keys, 0);
    assert TakenAfter(schema, args.Keys, 0) == args.Keys;
    SkipRequired(schema, args.Keys, 0, j);
    NextRequired(schema, args.Keys, j);
    var slots := RequiredSlots(schema, args.Keys, 0);
    assert Slots(schema, args.Keys) == slots && slots[0].field == field;
    if TypeOf(schema, field) != "array" {
      SlotsAreFresh(schema, args.Keys);
      HeadTakes(schema, args, slots, field, [word] + more);
    }
  }

  lemma {:induction false} SkipRequired(schema: Schema, taken: set<string>, k: nat, j: nat)
    requires k <= j <= |schema.required|
    requires forall i :: k <= i < j ==> IsName(schema.required[i]) && schema.required[i].name in taken
    ensures RequiredSlots(schema, taken, k) == RequiredSlots(schema, taken, j)
    decreases j - k
  {
    if k < j {
      NextRequired(schema, taken, k);
      SkipRequired(schema, taken, k + 1, j);
    }
  }

  lemma {:induction false} SkipTo(schema: Schema, taken: set<string>, k: nat, i: nat)
    requires k <= i <= |PRIORITY|
    requires forall j :: k <= j < i ==> PRIORITY[j] !in schema.props || PRIORITY[j] in taken || (j == 9 && UnsetRequired(schema, taken))
    ensures CommonSlots(schema, taken, k) == CommonSlots(schema, taken, i)
    decreases i - k
  {
    if k < i {
      NextCommon(schema, taken, k);
      SkipTo(schema, taken, k + 1, i);
    }
  }

  /** strconv.Itoa for a number that is not negative. */
  function Decimal(n: nat): string {
    (if n < 10 then "" else Decimal(n / 10)) + ["0123456789"[n % 10]]
  }

  lemma {:induction false} DigitsOfDecimal(n: nat)
    ensures Digits(Decimal(n)) == Some(n) && Decimal(n) != "" && IsDigit(Decimal(n)[0])
  {
    var init, last := if n < 10 then "" else Decimal(n / 10), "0123456789"[n % 10];
    assert Decimal(n)[..|Decimal(n)| - 1] == init;
    DigitIs(n % 10);
    if n >= 10 {
      DigitsOfDecimal(n / 10);
      assert Decimal(n)[0] == init[0];
    }
  }

  lemma DigitIs(d: nat)
    requires d < 10
    ensures IsDigit("0123456789"[d]) && "0123456789"[d] as int - '0' as int == d
  {
  }

  /** A printed number is read back, with a sign or without, as long as it is a
      64-bit one; larger numbers are no numbers. */
  lemma AtoiReadsBack(n: nat)
    ensures Atoi(Decimal(n)) == if n < 0x8000_0000_0000_0000 then Some(n) else None
    ensures Atoi("+" + Decimal(n)) == if n < 0x8000_0000_0000_0000 then Some(n) else None
    ensures Atoi("-" + Decimal(n)) == if n <= 0x8000_0000_0000_0000 then Some(-(n as int)) else None
  {
    DigitsOfDecimal(n);
    AtoiUnsigned(Decimal(n), n);
    AtoiSigned('+', Decimal(n), n);
    AtoiSigned('-', Decimal(n), n);
  }

  lemma AtoiUnsigned(body: string, n: nat)
    requires body != "" && IsDigit(body[0]) && Digits(body) == Some(n)
    ensures Atoi(body) == if n < 0x8000_0000_0000_0000 then Some(n) else None
  {
  }

  lemma AtoiSigned(sign: char, body: string, n: nat)
    requires (sign == '+' || sign == '-') && body != "" && Digits(body) == Some(n)
    ensures var v: int := if sign == '-' then -(n as int) else n;
            Atoi([sign] + body) == if -0x8000_0000_0000_0000 <= v < 0x8000_0000_0000_0000 then Some(v) else None
  {
    var s := [sign] + body;
    assert s[0] == sign && s[1..] == body;
  }

  /** Nothing but digits after a sign is a number. */
  lemma {:induction false} OnlyDigitsAreNumbers(s: string)
    ensures Digits(s).Some? <==> forall k :: 0 <= k < |s| ==> s[k] in "0123456789"
  {
    if s != "" {
      var init := s[..|s| - 1];
      OnlyDigitsAreNumbers(init);
      assert IsDigit(s[|s| - 1]) <==> s[|s| - 1] in "0123456789" by {
        TenDigits(s[|s| - 1]);
      }
      assert forall k :: 0 <= k < |init| ==> init[k] == s[k];
    }
  }

  lemma TenDigits(c: char)
    ensures IsDigit(c) <==> c in "0123456789"
  {
    if IsDigit(c) {
      assert c == '0' || c == '1' || c == '2' || c == '3' || c == '4' || c == '5' || c == '6' || c == '7' || c == '8' || c == '9';
    }
  }
}

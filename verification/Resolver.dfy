/** cmd/linuxctl/resolver.go and cmd/linuxctl/completion.go: what `get <group>`
    resolves to, and the keywords completion offers for it. */
module Resolver {
  import opened Text
  import opened Positional

  datatype Tool = Tool(name: string, group: string, verb: string, schema: Option<Schema>)

  datatype Resource = Resource(uri: string, group: string, verb: string)

  datatype Template = Template(uriTemplate: string, group: string, verb: string)

  datatype Registry = Registry(tools: seq<Tool>, resources: seq<Resource>, templates: seq<Template>)

  datatype Action =
    | ToolCall(tool: Tool, positional: seq<string>)
    | ResourceRead(uri: string)
    | TemplateRead(template: Template, positional: seq<string>)

  /** The command part of a tool's name: what follows its first "/". */
  function Command(name: string): string {
    if name == "" then "" else if name[0] == '/' then name[1..] else Command(name[1..])
  }

  /** isMutationOnly: a required parameter is one of a fixed list of actions. */
  predicate MutationOnly(t: Tool) {
    t.schema.Some? && exists i :: 0 <= i < |t.schema.value.required| && FixedChoice(t.schema.value, t.schema.value.required[i])
  }

  predicate FixedChoice(schema: Schema, r: Req) {
    r.Name? && r.name in schema.props && schema.props[r.name].hasEnum
  }

  /** canConsumePositional: there is somewhere to put a word. */
  predicate TakesWords(schema: Option<Schema>) {
    schema.Some? && ((exists i :: 0 <= i < |PRIORITY| && PRIORITY[i] in schema.value.props) || schema.value.required != [])
  }

  // ----- the first match of each kind -----

  predicate IsKeywordTool(t: Tool, group: string, word: string) {
    t.group == group && !MutationOnly(t) && t.verb != "" && t.verb == word
  }

  predicate IsBare(t: Tool, group: string) {
    t.group == group && !MutationOnly(t) && t.verb == "get"
  }

  method KeywordTool(reg: Registry, group: string, rest: seq<string>) returns (r: Option<Action>)
    ensures r.Some? <==> rest != [] && exists i :: 0 <= i < |reg.tools| && IsKeywordTool(reg.tools[i], group, rest[0])
    ensures r.Some? ==> r.value.ToolCall? && r.value.positional == rest[1..]
    ensures r.Some? ==> exists i :: 0 <= i < |reg.tools| && IsKeywordTool(reg.tools[i], group, rest[0])
                          && r.value.tool == reg.tools[i] && forall j :: 0 <= j < i ==> !IsKeywordTool(reg.tools[j], group, rest[0])
  {
    if |rest| == 0 {
      return None;
    }
    for i := 0 to |reg.tools|
      invariant forall j :: 0 <= j < i ==> !IsKeywordTool(reg.tools[j], group, rest[0])
    {
      var t := reg.tools[i];
      if t.group == group && !MutationOnly(t) && t.verb != "" && t.verb == rest[0] {
        assert IsKeywordTool(reg.tools[i], group, rest[0]);
        return Some(ToolCall(t, rest[1..]));
      }
    }
    return None;
  }

  predicate IsResource(r: Resource, group: string, word: string) {
    r.group == group && r.verb == word
  }

  method FindResource(reg: Registry, group: string, rest: seq<string>) returns (r: Option<Action>)
    ensures r.Some? <==> rest != [] && exists i :: 0 <= i < |reg.resources| && IsResource(reg.resources[i], group, rest[0])
    ensures r.Some? ==> exists i :: 0 <= i < |reg.resources| && IsResource(reg.resources[i], group, rest[0])
                          && r == Some(ResourceRead(reg.resources[i].uri))
                          && forall j :: 0 <= j < i ==> !IsResource(reg.resources[j], group, rest[0])
  {
    if |rest| == 0 {
      return None;
    }
    for i := 0 to |reg.resources|
      invariant forall j :: 0 <= j < i ==> !IsResource(reg.resources[j], group, rest[0])
    {
      if reg.resources[i].group == group && reg.resources[i].verb == rest[0] {
        assert IsResource(reg.resources[i], group, rest[0]);
        return Some(ResourceRead(reg.resources[i].uri));
      }
    }
    return None;
  }

  predicate IsTemplate(t: Template, group: string, word: string) {
    t.group == group && t.verb != "" && t.verb == word
  }

  method FindTemplate(reg: Registry, group: string, rest: seq<string>) returns (r: Option<Action>)
    ensures r.Some? <==> rest != [] && exists i :: 0 <= i < |reg.templates| && IsTemplate(reg.templates[i], group, rest[0])
    ensures r.Some? ==> exists i :: 0 <= i < |reg.templates| && IsTemplate(reg.templates[i], group, rest[0])
                          && r == Some(TemplateRead(reg.templates[i], rest[1..]))
                          && forall j :: 0 <= j < i ==> !IsTemplate(reg.templates[j], group, rest[0])
  {
    if |rest| == 0 {
      return None;
    }
    for i := 0 to |reg.templates|
      invariant forall j :: 0 <= j < i ==> !IsTemplate(reg.templates[j], group, rest[0])
    {
      var t := reg.templates[i];
      if t.group == group && t.verb != "" && t.verb == rest[0] {
        assert IsTemplate(reg.templates[i], group, rest[0]);
        return Some(TemplateRead(t, rest[1..]));
      }
    }
    return None;
  }

  /** The group's first bare tool, if there is one. */
  function FirstBare(tools: seq<Tool>, group: string, i: nat): Option<Tool>
    requires i <= |tools|
    decreases |tools| - i
  {
    if i == |tools| then None
    else if IsBare(tools[i], group) then Some(tools[i])
    else FirstBare(tools, group, i + 1)
  }

  /** What the bare tool makes of the words: none, its own name, data, or no. */
  function BareTakes(t: Tool, rest: seq<string>): Option<Action> {
    if rest == [] then Some(ToolCall(t, rest))
    else if rest[0] == Command(t.name) then Some(ToolCall(t, rest[1..]))
    else if TakesWords(t.schema) then Some(ToolCall(t, rest))
    else None
  }

  method BareTool(reg: Registry, group: string, rest: seq<string>) returns (r: Option<Action>)
    ensures r == match FirstBare(reg.tools, group, 0) case None => None case Some(t) => BareTakes(t, rest)
  {
    for i := 0 to |reg.tools|
      invariant FirstBare(reg.tools, group, 0) == FirstBare(reg.tools, group, i)
    {
      var t := reg.tools[i];
      if t.group != group || MutationOnly(t) || t.verb != "get" {
        continue;
      }
      if |rest| == 0 {
        return Some(ToolCall(t, rest));
      }
      if rest[0] == Command(t.name) {
        return Some(ToolCall(t, rest[1..]));
      }
      if TakesWords(t.schema) {
        return Some(ToolCall(t, rest));
      }
      return None;
    }
    return None;
  }

  /** Some keyword of the group is this word. */
  ghost predicate Named(reg: Registry, group: string, word: string) {
    || (exists i :: 0 <= i < |reg.tools| && IsKeywordTool(reg.tools[i], group, word))
    || (exists i :: 0 <= i < |reg.resources| && IsResource(reg.resources[i], group, word))
    || (exists i :: 0 <= i < |reg.templates| && IsTemplate(reg.templates[i], group, word))
  }

  /** A keyword wins; anything else is for the bare tool to take or to refuse. */
  ghost predicate Resolves(reg: Registry, group: string, rest: seq<string>, r: Option<Action>) {
    && (rest != [] && Named(reg, group, rest[0]) ==> r.Some? && Keyworded(reg, group, rest, r.value))
    && (rest == [] || !Named(reg, group, rest[0]) ==>
          r == match FirstBare(reg.tools, group, 0) case None => None case Some(t) => BareTakes(t, rest))
  }

  /** Case B of Resolve; None stands for every error. */
  method ResolveGet(reg: Registry, group: string, rest: seq<string>) returns (r: Option<Action>)
    ensures Resolves(reg, group, rest, r)
  {
    r := KeywordTool(reg, group, rest);
    if r.Some? {
      return r;
    }
    r := FindResource(reg, group, rest);
    if r.Some? {
      return r;
    }
    r := FindTemplate(reg, group, rest);
    if r.Some? {
      return r;
    }
    r := BareTool(reg, group, rest);
  }

  /** The keyword is consumed, and names what is read: a tool before a resource
      before a template. */
  ghost predicate Keyworded(reg: Registry, group: string, rest: seq<string>, a: Action)
    requires rest != []
  {
    match a
    case ToolCall(t, positional) => IsKeywordTool(t, group, rest[0]) && t in reg.tools && positional == rest[1..]
    case ResourceRead(uri) =>
      && (exists i :: 0 <= i < |reg.resources| && IsResource(reg.resources[i], group, rest[0]) && reg.resources[i].uri == uri)
      && forall i :: 0 <= i < |reg.tools| ==> !IsKeywordTool(reg.tools[i], group, rest[0])
    case TemplateRead(t, positional) =>
      && IsTemplate(t, group, rest[0]) && t in reg.templates && positional == rest[1..]
      && (forall i :: 0 <= i < |reg.tools| ==> !IsKeywordTool(reg.tools[i], group, rest[0]))
      && forall i :: 0 <= i < |reg.resources| ==> !IsResource(reg.resources[i], group, rest[0])
  }

  // ----- completion -----

  function ToolKeyword(t: Tool): string {
    if t.verb == "get" then Command(t.name) else t.verb
  }

  predicate OffersTool(t: Tool, group: string) {
    t.group == group && !MutationOnly(t) && t.verb != ""
  }

  /** The word is among the keywords of the group. */
  ghost predicate Offered(reg: Registry, group: string, word: string) {
    || (exists i :: 0 <= i < |reg.tools| && OffersTool(reg.tools[i], group) && ToolKeyword(reg.tools[i]) == word)
    || (exists i :: 0 <= i < |reg.resources| && IsResource(reg.resources[i], group, word) && word != "")
    || (exists i :: 0 <= i < |reg.templates| && IsTemplate(reg.templates[i], group, word))
  }

  /** keywordsFor for "get", in a group other than mcpd. */
  method KeywordsFor(reg: Registry, group: string) returns (kws: seq<string>)
    ensures forall word :: word in kws <==> Offered(reg, group, word)
  {
    var tools := ToolKeywords(reg, group);
    var resources := ResourceKeywords(reg, group);
    var templates := TemplateKeywords(reg, group);
    kws := tools + resources + templates;
    forall word ensures word in kws <==> Offered(reg, group, word) {
      assert word in kws <==> word in tools || word in resources || word in templates;
    }
  }

  method ToolKeywords(reg: Registry, group: string) returns (kws: seq<string>)
    ensures forall w :: w in kws <==> exists i :: 0 <= i < |reg.tools| && OffersTool(reg.tools[i], group) && ToolKeyword(reg.tools[i]) == w
  {
    kws := [];
    for k := 0 to |reg.tools|
      invariant forall w :: w in kws <==> exists i :: 0 <= i < k && OffersTool(reg.tools[i], group) && ToolKeyword(reg.tools[i]) == w
    {
      var t := reg.tools[k];
      if t.group != group || MutationOnly(t) || t.verb == "" {
        continue;
      }
      assert OffersTool(reg.tools[k], group);
      if t.verb == "get" {
        kws := kws + [Command(t.name)];
      } else {
        kws := kws + [t.verb];
      }
    }
  }

  method ResourceKeywords(reg: Registry, group: string) returns (kws: seq<string>)
    ensures forall w :: w in kws <==> exists i :: 0 <= i < |reg.resources| && IsResource(reg.resources[i], group, w) && w != ""
  {
    kws := [];
    for k := 0 to |reg.resources|
      invariant forall w :: w in kws <==> exists i :: 0 <= i < k && IsResource(reg.resources[i], group, w) && w != ""
    {
      var r := reg.resources[k];
      assert IsResource(reg.resources[k], group, r.verb) <==> r.group == group;
      if r.group == group && r.verb != "" {
        kws := kws + [r.verb];
      }
    }
  }

  method TemplateKeywords(reg: Registry, group: string) returns (kws: seq<string>)
    ensures forall w :: w in kws <==> exists i :: 0 <= i < |reg.templates| && IsTemplate(reg.templates[i], group, w)
  {
    kws := [];
    for k := 0 to |reg.templates|
      invariant forall w :: w in kws <==> exists i :: 0 <= i < k && IsTemplate(reg.templates[i], group, w)
    {
      var t := reg.templates[k];
      assert IsTemplate(reg.templates[k], group, t.verb) <==> t.group == group && t.verb != "";
      if t.group == group && t.verb != "" {
        kws := kws + [t.verb];
      }
    }
  }

  // ----- the resolver against completion -----

  /** At most one tool of the group is reached without a keyword. */
  ghost predicate OneBare(reg: Registry, group: string) {
    forall i, j :: 0 <= i < j < |reg.tools| && IsBare(reg.tools[i], group) ==> !IsBare(reg.tools[j], group)
  }

  lemma {:induction false} FirstBareIs(tools: seq<Tool>, group: string, i: nat, k: nat)
    requires i <= k < |tools| && IsBare(tools[k], group)
    requires forall j :: i <= j < k ==> !IsBare(tools[j], group)
    ensures FirstBare(tools, group, i) == Some(tools[k])
    decreases k - i
  {
    if i < k {
      FirstBareIs(tools, group, i + 1, k);
    }
  }

  lemma {:induction false} FirstBareOccurs(tools: seq<Tool>, group: string, i: nat)
    requires i <= |tools|
    ensures FirstBare(tools, group, i).Some? ==>
              exists k :: i <= k < |tools| && IsBare(tools[k], group) && tools[k] == FirstBare(tools, group, i).value
    decreases |tools| - i
  {
    if i < |tools| && !IsBare(tools[i], group) {
      FirstBareOccurs(tools, group, i + 1);
    }
  }

  /** The first word was taken as a keyword. */
  predicate Consumed(r: Option<Action>, rest: seq<string>)
    requires rest != []
  {
    r.Some? && (r.value.ResourceRead? || r.value.positional == rest[1..])
  }

  /** With one bare tool every keyword completion offers is accepted, and
      consumed. */
  lemma OfferedIsAccepted(reg: Registry, group: string, rest: seq<string>, r: Option<Action>)
    requires OneBare(reg, group) && rest != [] && Offered(reg, group, rest[0]) && Resolves(reg, group, rest, r)
    ensures Consumed(r, rest)
  {
    if !Named(reg, group, rest[0]) {
      var i :| 0 <= i < |reg.tools| && OffersTool(reg.tools[i], group) && ToolKeyword(reg.tools[i]) == rest[0];
      assert IsKeywordTool(reg.tools[i], group, rest[0]) <==> reg.tools[i].verb != "get";
      FirstBareIs(reg.tools, group, 0, i);
    }
  }

  /** Any other word, but for "" and "get", is refused or handed on as data:
      accepted exactly when the bare tool has somewhere to put it. */
  lemma OthersAreDataOrRefused(reg: Registry, group: string, rest: seq<string>, r: Option<Action>)
    requires rest != [] && rest[0] != "" && rest[0] != "get" && !Offered(reg, group, rest[0]) && Resolves(reg, group, rest, r)
    ensures match FirstBare(reg.tools, group, 0)
            case None => r.None?
            case Some(t) => r == if TakesWords(t.schema) then Some(ToolCall(t, rest)) else None
  {
    var word := rest[0];
    forall i | 0 <= i < |reg.tools|
      ensures IsKeywordTool(reg.tools[i], group, word) ==> OffersTool(reg.tools[i], group) && ToolKeyword(reg.tools[i]) == word
    {
    }
    assert !Named(reg, group, word);
    FirstBareOccurs(reg.tools, group, 0);
    if FirstBare(reg.tools, group, 0).Some? {
      var k :| 0 <= k < |reg.tools| && IsBare(reg.tools[k], group) && reg.tools[k] == FirstBare(reg.tools, group, 0).value;
      assert OffersTool(reg.tools[k], group) && ToolKeyword(reg.tools[k]) == Command(reg.tools[k].name);
    }
  }

  /** The sentinel "get" is never data: as a word it calls the group's first bare
      tool and is consumed. */
  lemma SentinelCallsBareTool(reg: Registry, group: string, rest: seq<string>, r: Option<Action>)
    requires rest != [] && rest[0] == "get" && Resolves(reg, group, rest, r) && FirstBare(reg.tools, group, 0).Some?
    ensures r.Some? && Named(reg, group, "get") && (r.value.ToolCall? ==> IsBare(r.value.tool, group) && r.value.positional == rest[1..])
  {
    FirstBareOccurs(reg.tools, group, 0);
    var k :| 0 <= k < |reg.tools| && IsBare(reg.tools[k], group) && reg.tools[k] == FirstBare(reg.tools, group, 0).value;
    assert IsKeywordTool(reg.tools[k], group, "get");
  }

  /** The word names a resource, a template or a tool with a verb, or it is the
      name of the group's first bare tool. */
  ghost predicate Reaches(reg: Registry, group: string, word: string) {
    Named(reg, group, word) || match FirstBare(reg.tools, group, 0) case None => false case Some(t) => Command(t.name) == word
  }

  ghost predicate OfferIsKept(reg: Registry, group: string, rest: seq<string>, r: Option<Action>) {
    rest != [] && Offered(reg, group, rest[0]) && Resolves(reg, group, rest, r) ==> Consumed(r, rest)
  }

  ghost predicate EveryBareReaches(reg: Registry, group: string) {
    forall i :: 0 <= i < |reg.tools| && IsBare(reg.tools[i], group) ==> Reaches(reg, group, Command(reg.tools[i].name))
  }

  /** A word is consumed exactly when it reaches something. */
  lemma ConsumedIffReaches(reg: Registry, group: string, rest: seq<string>, r: Option<Action>)
    requires rest != [] && Resolves(reg, group, rest, r)
    ensures Consumed(r, rest) <==> Reaches(reg, group, rest[0])
  {
    assert |rest[1..]| < |rest|;
  }

  /** Exactly when completion offers no word that is then refused or taken for
      data: the name of every bare tool is some keyword, or the first one's. */
  lemma EveryOfferIsKeptIff(reg: Registry, group: string)
    ensures (forall rest, r :: OfferIsKept(reg, group, rest, r)) <==> EveryBareReaches(reg, group)
  {
    if EveryBareReaches(reg, group) {
      forall rest, r ensures OfferIsKept(reg, group, rest, r) {
        if rest != [] && Offered(reg, group, rest[0]) && Resolves(reg, group, rest, r) {
          OfferedReaches(reg, group, rest[0]);
          ConsumedIffReaches(reg, group, rest, r);
        }
      }
    } else {
      var i :| 0 <= i < |reg.tools| && IsBare(reg.tools[i], group) && !Reaches(reg, group, Command(reg.tools[i].name));
      var word := Command(reg.tools[i].name);
      var r := match FirstBare(reg.tools, group, 0) case None => None case Some(t) => BareTakes(t, [word]);
      assert OffersTool(reg.tools[i], group) && ToolKeyword(reg.tools[i]) == word && [word][0] == word;
      assert Resolves(reg, group, [word], r);
      ConsumedIffReaches(reg, group, [word], r);
      assert !OfferIsKept(reg, group, [word], r);
    }
  }

  lemma OfferedReaches(reg: Registry, group: string, word: string)
    requires EveryBareReaches(reg, group) && Offered(reg, group, word)
    ensures Reaches(reg, group, word)
  {
    if !Named(reg, group, word) {
      var i :| 0 <= i < |reg.tools| && OffersTool(reg.tools[i], group) && ToolKeyword(reg.tools[i]) == word;
      assert IsKeywordTool(reg.tools[i], group, word) <==> reg.tools[i].verb != "get";
    }
  }

  /** With two bare tools the second one's name is offered and refused. */
  lemma SecondBareToolIsRefused()
    ensures var reg := Registry([Tool("g/a", "g", "get", None), Tool("g/b", "g", "get", None)], [], []);
            Offered(reg, "g", "b") && !Named(reg, "g", "b")
            && (match FirstBare(reg.tools, "g", 0) case None => true case Some(t) => BareTakes(t, ["b"]).None?)
  {
    var a, b := Tool("g/a", "g", "get", None), Tool("g/b", "g", "get", None);
    var reg := Registry([a, b], [], []);
    CommandOf("a");
    CommandOf("b");
    assert reg.tools[1] == b && OffersTool(reg.tools[1], "g") && ToolKeyword(reg.tools[1]) == "b";
    assert FirstBare(reg.tools, "g", 0) == Some(a);
    assert forall i :: 0 <= i < |reg.tools| ==> reg.tools[i].verb == "get";
  }

  lemma CommandOf(cmd: string)
    ensures Command("g/" + cmd) == cmd
  {
    var name := "g/" + cmd;
    assert name[0] == 'g' && name[1..] == "/" + cmd;
    assert ("/" + cmd)[1..] == cmd;
  }

  // ----- which tools take part -----

  /** What follows the first "/" of a tool's name. */
  lemma {:induction false} CommandIs(name: string)
    ensures '/' !in name ==> Command(name) == ""
    ensures forall group, cmd :: '/' !in group && name == group + "/" + cmd ==> Command(name) == cmd
  {
    if name != "" && name[0] != '/' {
      CommandIs(name[1..]);
      forall group, cmd | '/' !in group && name == group + "/" + cmd ensures Command(name) == cmd {
        assert group != "" && name[1..] == group[1..] + "/" + cmd;
      }
    } else if name != "" {
      forall group, cmd | '/' !in group && name == group + "/" + cmd ensures Command(name) == cmd {
        HeadOfGroup(group, cmd);
      }
    }
  }

  lemma HeadOfGroup(group: string, cmd: string)
    requires '/' !in group
    ensures (group + "/" + cmd)[0] == '/' ==> group == "" && (group + "/" + cmd)[1..] == cmd
  {
    if group != "" { assert group[0] in group; }
  }

  /** A tool that has to be told which of several actions to take is never reached
      by get, however the words are chosen. */
  lemma ActionsAreNotReached(reg: Registry, group: string, rest: seq<string>, r: Option<Action>)
    requires Resolves(reg, group, rest, r) && r.Some? && r.value.ToolCall?
    ensures r.value.tool in reg.tools && r.value.tool.group == group && r.value.tool.verb != ""
    ensures var schema := r.value.tool.schema;
            schema.Some? ==> forall i :: 0 <= i < |schema.value.required| && schema.value.required[i].Name? ==>
              !(schema.value.required[i].name in schema.value.props && schema.value.props[schema.value.required[i].name].hasEnum)
  {
    FirstBareOccurs(reg.tools, group, 0);
    var t := r.value.tool;
    assert !MutationOnly(t);
    if t.schema.Some? {
      forall i | 0 <= i < |t.schema.value.required| && t.schema.value.required[i].Name?
        ensures !(t.schema.value.required[i].name in t.schema.value.props && t.schema.value.props[t.schema.value.required[i].name].hasEnum)
      {
        assert !FixedChoice(t.schema.value, t.schema.value.required[i]);
      }
    }
  }

  /** Every other tool of the group with a verb is offered: under that verb, or
      under its own name if it is a bare one. */
  lemma OtherToolsAreOffered(reg: Registry, group: string, k: nat)
    requires k < |reg.tools| && reg.tools[k].group == group && reg.tools[k].verb != ""
    requires var schema := reg.tools[k].schema;
             schema.None? || forall i :: 0 <= i < |schema.value.required| ==>
               schema.value.required[i].NotAString? || schema.value.required[i].name !in schema.value.props
               || !schema.value.props[schema.value.required[i].name].hasEnum
    ensures Offered(reg, group, if reg.tools[k].verb == "get" then Command(reg.tools[k].name) else reg.tools[k].verb)
  {
    var t := reg.tools[k];
    assert !MutationOnly(t);
    assert OffersTool(reg.tools[k], group) && ToolKeyword(reg.tools[k]) == if t.verb == "get" then Command(t.name) else t.verb;
  }

  /** A tool takes words if and only if there is a slot to deal the first one to,
      provided the required list does not start with an entry that is no name. */
  lemma TakesWordsIs(schema: Schema)
    requires schema.required != [] ==> IsName(schema.required[0])
    ensures TakesWords(Some(schema)) <==> Slots(schema, {}) != []
  {
    var taken := TakenAfter(schema, {}, 0);
    CommonAreFresh(schema, {}, 0);
    if schema.required != [] {
      NextRequired(schema, taken, 0);
      if schema.required[0].name in taken {
        assert Fields(CommonSlots(schema, {}, 0)) != {};
      }
    } else if TakesWords(Some(schema)) {
      var i :| 0 <= i < |PRIORITY| && PRIORITY[i] in schema.props;
      SomeSlot(schema, 0, i);
    } else {
      SkipTo(schema, {}, 0, |PRIORITY|);
    }
  }

  lemma {:induction false} SomeSlot(schema: Schema, k: nat, i: nat)
    requires k <= i < |PRIORITY| && PRIORITY[i] in schema.props && schema.required == []
    ensures CommonSlots(schema, {}, k) != []
    decreases i - k
  {
    NextCommon(schema, {}, k);
    if k < i {
      SomeSlot(schema, k + 1, i);
    }
  }
}

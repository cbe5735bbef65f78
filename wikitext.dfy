/**
  A recursive-descent parser for the subset of wikitext that the Minecraft wiki uses: a
  document is a list of sections, each with an optional `==`-delimited title and a list of
  nodes; a node is plain text, a `[[link]]` or a `{{template|key=value|value}}`.

  The parser works on a list of tokens (the tokenizer is not part of this model) through an
  iterator; the iterator is modelled as the token sequence together with the position of the
  next token. Every parser returns either what it parsed and the position after it, or the
  error that the source throws.

  The model comes in two layers. The functions `NodeAt`, `NodesFrom`, `TemplateAt`,
  `ParamsFrom`, `ParameterAt`, `SectionAt`, `SectionsFrom` and `WikitextOf` are the
  recursive reference definition of what the parser returns. The methods `ParseNode`,
  `ParseNodes`, `ParseTemplate`, `ParseTemplateParameter`, `ParseSection` and `ParseWikitext`
  follow the source's code, with its `while` loops, and are proved to return exactly what the
  reference definition says. The leaf parsers, which have no loop, are functions used by both.
*/
module Wikitext {

  datatype Option<T> = None | Some(value: T)

  /** A token: a run of text, or a run of one repeated symbol character (`==`, `[[`, `|`, ...). */
  datatype Token = Text(text: string) | Symbol(symbol: string)

  datatype Node =
    | PlainText(text: string)
    | Link(link: string)
    | Template(name: string, params: seq<TemplateParameter>)

  datatype TemplateParameter =
    | KeyValue(key: string, nodes: seq<Node>)
    | Value(nodes: seq<Node>)

  datatype Section = Section(title: Option<string>, content: seq<Node>)

  datatype Document = Document(sections: seq<Section>)

  datatype ParseError = NoMoreTokens(message: string) | UnexpectedToken(message: string)

  /** The outcome of running a parser at a position: the parsed value and the position of the
      first token it did not consume, or the error it threw. */
  datatype Parse<T> = Parsed(value: T, next: nat) | Failed(error: ParseError)

  /** The next token without consuming it (`peek()`; `peek(2)` is `Peek(tokens, pos + 1)`). */
  function Peek(tokens: seq<Token>, pos: nat): Option<Token>
  {
    if pos < |tokens| then Some(tokens[pos]) else None
  }

  /** The tokens at which the node parser stops without consuming anything: the end of the
      input, or any symbol other than the ones that open a link or a template. */
  predicate StopsNodes(tokens: seq<Token>, pos: nat)
  {
    pos >= |tokens| || (tokens[pos].Symbol? && tokens[pos].symbol != "[[" && tokens[pos].symbol != "{{")
  }

  /** The tokens at which the title parser starts: a symbol that begins with `=`. */
  predicate StartsTitle(tokens: seq<Token>, pos: nat)
  {
    pos < |tokens| && tokens[pos].Symbol? && |tokens[pos].symbol| > 0 && tokens[pos].symbol[0] == '='
  }

  /** Puts the values parsed so far in front of the outcome of parsing the rest. */
  function Prepend<T>(done: seq<T>, rest: Parse<seq<T>>): (r: Parse<seq<T>>)
    ensures r.Failed? <==> rest.Failed?
  {
    match rest
    case Parsed(more, next) => Parsed(done + more, next)
    case Failed(e) => Failed(e)
  }

  lemma PrependNothing<T>(rest: Parse<seq<T>>)
    ensures Prepend([], rest) == rest
  {
    if rest.Parsed? {
      assert [] + rest.value == rest.value;
    }
  }

  lemma PrependTwice<T>(done: seq<T>, more: seq<T>, rest: Parse<seq<T>>)
    ensures Prepend(done, Prepend(more, rest)) == Prepend(done + more, rest)
  {
    if rest.Parsed? {
      assert done + (more + rest.value) == (done + more) + rest.value;
    }
  }

  // ---------------------------------------------------------------------------------------
  // Leaf parsers (no loops): shared by the reference definition and the methods
  // ---------------------------------------------------------------------------------------

  /** parseText: consumes one text token. */
  function ParseText(tokens: seq<Token>, pos: nat): (r: Parse<Node>)
    ensures r.Parsed? <==> pos < |tokens| && tokens[pos].Text?
    ensures r.Parsed? ==> r.value == PlainText(tokens[pos].text) && r.next == pos + 1
    ensures r.Failed? ==> r.error.NoMoreTokens?
  {
    match Peek(tokens, pos)
    case Some(Text(text)) => Parsed(PlainText(text), pos + 1)
    case _ => Failed(NoMoreTokens("Expected text"))
  }

  /** parseLink: `[[`, a text token and `]]`, in that order, or an error. */
  function ParseLink(tokens: seq<Token>, pos: nat): (r: Parse<Node>)
    ensures r.Parsed? <==>
              pos + 3 <= |tokens| && tokens[pos] == Symbol("[[") && tokens[pos + 1].Text?
              && tokens[pos + 2] == Symbol("]]")
    ensures r.Parsed? ==> r.value == Link(tokens[pos + 1].text) && r.next == pos + 3
    ensures r.Failed? ==> r.error.NoMoreTokens?
  {
    if Peek(tokens, pos) != Some(Symbol("[[")) then
      Failed(NoMoreTokens("Expected opening [["))
    else
      match Peek(tokens, pos + 1)
      case Some(Text(link)) =>
        if Peek(tokens, pos + 2) != Some(Symbol("]]")) then
          Failed(NoMoreTokens("Expected closing ]] (after link: " + link + ")"))
        else
          Parsed(Link(link), pos + 3)
      case _ => Failed(NoMoreTokens("Expected link"))
  }

  /** parseTemplateParameterKey: a text token followed by the symbol `=` is a key, and both are
      consumed; anything else consumes nothing. It never fails. */
  function ParseTemplateParameterKey(tokens: seq<Token>, pos: nat): (r: Parse<Option<string>>)
    ensures r.Parsed?
    ensures r.value.Some? <==>
              pos + 2 <= |tokens| && tokens[pos].Text? && tokens[pos + 1] == Symbol("=")
    ensures r.value.Some? ==> r.value.value == tokens[pos].text && r.next == pos + 2
    ensures r.value.None? ==> r.next == pos
  {
    match Peek(tokens, pos)
    case Some(Text(key)) =>
      if Peek(tokens, pos + 1) == Some(Symbol("=")) then Parsed(Some(key), pos + 2)
      else Parsed(None, pos)
    case _ => Parsed(None, pos)
  }

  /** parseTitle: if the next token is a symbol starting with `=`, a text token and then the
      very same symbol must follow; otherwise there is no title and nothing is consumed. */
  function ParseTitle(tokens: seq<Token>, pos: nat): (r: Parse<Option<string>>)
    ensures !StartsTitle(tokens, pos) ==> r == Parsed(None, pos)
    ensures StartsTitle(tokens, pos) ==>
              (r.Parsed? <==> pos + 3 <= |tokens| && tokens[pos + 1].Text? && tokens[pos + 2] == tokens[pos])
    ensures StartsTitle(tokens, pos) && r.Parsed? ==>
              r.value == Some(tokens[pos + 1].text) && r.next == pos + 3
    ensures StartsTitle(tokens, pos) && r.Failed? ==>
              (r.error.NoMoreTokens? <==> !(pos + 1 < |tokens| && tokens[pos + 1].Text?))
  {
    match Peek(tokens, pos)
    case Some(Symbol(opening)) =>
      if |opening| == 0 || opening[0] != '=' then
        Parsed(None, pos)
      else
        (match Peek(tokens, pos + 1)
         case Some(Text(title)) =>
           if Peek(tokens, pos + 2) != Some(Symbol(opening)) then
             Failed(UnexpectedToken("Closing =s do not match opening =s (" + opening + ")"))
           else
             Parsed(Some(title), pos + 3)
         case _ => Failed(NoMoreTokens("Expected title")))
    case _ => Parsed(None, pos)
  }

  /** Wraps a parsed node as a present one. */
  function Present(r: Parse<Node>): (o: Parse<Option<Node>>)
    ensures o.Parsed? <==> r.Parsed?
  {
    match r
    case Parsed(n, next) => Parsed(Some(n), next)
    case Failed(e) => Failed(e)
  }

  // ---------------------------------------------------------------------------------------
  // Reference definition of the recursive parsers
  //
  // Termination: every function is measured by the number of tokens left, and, between calls
  // at the same position, by its rank: TemplateAt 0 < NodeAt 1 < NodesFrom 2 < ParameterAt 3.
  // A template consumes `{{` and its name before it parses parameters, so the cycle
  // NodesFrom -> NodeAt -> TemplateAt -> ParamsFrom -> ParameterAt -> NodesFrom always advances.
  // ---------------------------------------------------------------------------------------

  /** parseNode: text, a link or a template, or nothing (without consuming) at a stop token. */
  function NodeAt(tokens: seq<Token>, pos: nat): (r: Parse<Option<Node>>)
    requires pos <= |tokens|
    ensures r.Parsed? && r.value.None? <==> StopsNodes(tokens, pos)
    ensures r.Parsed? ==> pos <= r.next <= |tokens|
    ensures r.Parsed? ==> (r.value.Some? <==> r.next > pos)
    ensures pos < |tokens| && tokens[pos].Text? ==> r == Present(ParseText(tokens, pos))
    ensures Peek(tokens, pos) == Some(Symbol("[[")) ==> r == Present(ParseLink(tokens, pos))
    decreases |tokens| - pos, 1
  {
    match Peek(tokens, pos)
    case None => Parsed(None, pos)
    case Some(Text(_)) => Present(ParseText(tokens, pos))
    case Some(Symbol(s)) =>
      if s == "[[" then Present(ParseLink(tokens, pos))
      else if s == "{{" then Present(TemplateAt(tokens, pos))
      else Parsed(None, pos)
  }

  /** At `{{` the node parser returns what the template parser returns, its errors included.
      (Kept out of `NodeAt`'s contract: together with the contracts of the template and
      parameter parsers it would let each contract call up the next without end.) */
  lemma NodeAtTemplate(tokens: seq<Token>, pos: nat)
    requires pos < |tokens| && tokens[pos] == Symbol("{{")
    ensures NodeAt(tokens, pos) == Present(TemplateAt(tokens, pos))
  {
  }

  /** parseNodes: nodes as long as there are any; stops at the first stop token. */
  function NodesFrom(tokens: seq<Token>, pos: nat): (r: Parse<seq<Node>>)
    requires pos <= |tokens|
    ensures r.Parsed? ==> pos <= r.next <= |tokens| && StopsNodes(tokens, r.next)
    ensures r.Parsed? ==> (r.value == [] <==> r.next == pos)
    ensures StopsNodes(tokens, pos) ==> r == Parsed([], pos)
    decreases |tokens| - pos, 2
  {
    match NodeAt(tokens, pos)
    case Failed(e) => Failed(e)
    case Parsed(None, _) => Parsed([], pos)
    case Parsed(Some(n), next) => Prepend([n], NodesFrom(tokens, next))
  }

  /** parseTemplate: `{{`, a text name, parameters (each introduced by `|`) and `}}`. */
  function TemplateAt(tokens: seq<Token>, pos: nat): (r: Parse<Node>)
    requires pos <= |tokens|
    ensures r.Parsed? ==>
              pos + 3 <= r.next <= |tokens| && tokens[pos] == Symbol("{{") && tokens[pos + 1].Text?
              && r.value.Template? && r.value.name == tokens[pos + 1].text
              && tokens[r.next - 1] == Symbol("}}")
    ensures !(pos + 2 <= |tokens| && tokens[pos] == Symbol("{{") && tokens[pos + 1].Text?) ==>
              r.Failed? && r.error.NoMoreTokens?
    ensures pos + 2 <= |tokens| && tokens[pos] == Symbol("{{") && tokens[pos + 1].Text? ==>
              match ParamsFrom(tokens, pos + 2)
              case Failed(e) => r == Failed(e)
              case Parsed(ps, next) =>
                (r.Parsed? <==> Peek(tokens, next) == Some(Symbol("}}")))
                && (r.Parsed? ==> r.value == Template(tokens[pos + 1].text, ps) && r.next == next + 1)
                && (r.Failed? ==> r.error.NoMoreTokens?)
    decreases |tokens| - pos, 0
  {
    if Peek(tokens, pos) != Some(Symbol("{{")) then
      Failed(NoMoreTokens("Expected opening {{"))
    else
      match Peek(tokens, pos + 1)
      case Some(Text(name)) =>
        (match ParamsFrom(tokens, pos + 2)
         case Failed(e) => Failed(e)
         case Parsed(params, next) =>
           if Peek(tokens, next) == Some(Symbol("}}")) then Parsed(Template(name, params), next + 1)
           else Failed(NoMoreTokens("Expected closing }}")))
      case _ => Failed(NoMoreTokens("Expected template title"))
  }

  /** The parameter loop of parseTemplate: one parameter per `|`, until the next token is
      something else. */
  function ParamsFrom(tokens: seq<Token>, pos: nat): (r: Parse<seq<TemplateParameter>>)
    requires pos <= |tokens|
    ensures r.Parsed? ==> pos <= r.next <= |tokens| && Peek(tokens, r.next) != Some(Symbol("|"))
    ensures r.Parsed? ==> (r.value == [] <==> r.next == pos)
    ensures Peek(tokens, pos) != Some(Symbol("|")) ==> r == Parsed([], pos)
    decreases |tokens| - pos, 3
  {
    if Peek(tokens, pos) == Some(Symbol("|")) then
      match ParameterAt(tokens, pos + 1)
      case Failed(e) => Failed(e)
      case Parsed(param, next) => Prepend([param], ParamsFrom(tokens, next))
    else
      Parsed([], pos)
  }

  /** parseTemplateParameter: `key = nodes` when a key is present, otherwise positional nodes. */
  function ParameterAt(tokens: seq<Token>, pos: nat): (r: Parse<TemplateParameter>)
    requires pos <= |tokens|
    ensures r.Parsed? ==> pos <= r.next <= |tokens| && StopsNodes(tokens, r.next)
    ensures r.Parsed? ==> (r.value.KeyValue? <==> ParseTemplateParameterKey(tokens, pos).value.Some?)
    ensures r.Parsed? && r.value.KeyValue? ==> r.value.key == tokens[pos].text
    ensures var key := ParseTemplateParameterKey(tokens, pos);
            match NodesFrom(tokens, key.next)
            case Failed(e) => r == Failed(e)
            case Parsed(nodes, next) => r.Parsed? && r.value.nodes == nodes && r.next == next
    decreases |tokens| - pos, 3
  {
    var key := ParseTemplateParameterKey(tokens, pos);
    match NodesFrom(tokens, key.next)
    case Failed(e) => Failed(e)
    case Parsed(nodes, next) =>
      if key.value.Some? then Parsed(KeyValue(key.value.value, nodes), next)
      else Parsed(Value(nodes), next)
  }

  /** parseSection: an optional title and the nodes after it; no section (and nothing consumed)
      when there is neither. */
  function SectionAt(tokens: seq<Token>, pos: nat): (r: Parse<Option<Section>>)
    requires pos <= |tokens|
    ensures r.Parsed? ==> pos <= r.next <= |tokens|
    ensures r.Parsed? ==> (r.value.None? <==> r.next == pos)
    ensures r.Parsed? && r.value.None? <==> StopsNodes(tokens, pos) && !StartsTitle(tokens, pos)
    ensures r.Parsed? && r.value.Some? ==>
              r.value.value.title.Some? || r.value.value.content != []
    ensures ParseTitle(tokens, pos).Failed? ==> r == Failed(ParseTitle(tokens, pos).error)
    ensures ParseTitle(tokens, pos).Parsed? ==>
              var title := ParseTitle(tokens, pos);
              match NodesFrom(tokens, title.next)
              case Failed(e) => r == Failed(e)
              case Parsed(nodes, next) =>
                r.Parsed? && r.next == next && (r.value.Some? ==> r.value.value == Section(title.value, nodes))
  {
    match ParseTitle(tokens, pos)
    case Failed(e) => Failed(e)
    case Parsed(title, afterTitle) =>
      match NodesFrom(tokens, afterTitle)
      case Failed(e) => Failed(e)
      case Parsed(nodes, next) =>
        if title.None? && nodes == [] then Parsed(None, next)
        else Parsed(Some(Section(title, nodes)), next)
  }

  /** Every section has a title or some content. */
  ghost predicate NonEmptySections(sections: seq<Section>)
  {
    forall i :: 0 <= i < |sections| ==> sections[i].title.Some? || sections[i].content != []
  }

  /** The section loop of parseWikitext. */
  function SectionsFrom(tokens: seq<Token>, pos: nat): (r: Parse<seq<Section>>)
    requires pos <= |tokens|
    ensures r.Parsed? ==> pos <= r.next <= |tokens|
    ensures r.Parsed? ==> StopsNodes(tokens, r.next) && !StartsTitle(tokens, r.next)
    ensures r.Parsed? ==> NonEmptySections(r.value)
    ensures StopsNodes(tokens, pos) && !StartsTitle(tokens, pos) ==> r == Parsed([], pos)
    ensures SectionAt(tokens, pos).Failed? ==> r == Failed(SectionAt(tokens, pos).error)
    decreases |tokens| - pos
  {
    match SectionAt(tokens, pos)
    case Failed(e) => Failed(e)
    case Parsed(None, _) => Parsed([], pos)
    case Parsed(Some(s), next) => Prepend([s], SectionsFrom(tokens, next))
  }

  /** parseWikitext: all sections up to the first token that starts neither a title nor a
      node; the rest of the tokens is ignored. `next` tells where parsing stopped. */
  function WikitextOf(tokens: seq<Token>): (r: Parse<Document>)
    ensures r.Parsed? ==> r.next <= |tokens| && StopsNodes(tokens, r.next) && !StartsTitle(tokens, r.next)
    ensures r.Parsed? ==> NonEmptySections(r.value.sections)
    ensures StopsNodes(tokens, 0) && !StartsTitle(tokens, 0) ==> r == Parsed(Document([]), 0)
    ensures SectionAt(tokens, 0).Failed? ==> r == Failed(SectionAt(tokens, 0).error)
  {
    match SectionsFrom(tokens, 0)
    case Failed(e) => Failed(e)
    case Parsed(sections, next) => Parsed(Document(sections), next)
  }

  // ---------------------------------------------------------------------------------------
  // The parser as the source writes it: methods with while loops over the token position
  // ---------------------------------------------------------------------------------------

  method ParseNode(tokens: seq<Token>, pos: nat) returns (r: Parse<Option<Node>>)
    requires pos <= |tokens|
    ensures r == NodeAt(tokens, pos)
    decreases |tokens| - pos, 1
  {
    if pos == |tokens| {
      return Parsed(None, pos);
    }
    match tokens[pos]
    case Text(_) =>
      r := Present(ParseText(tokens, pos));
    case Symbol(s) =>
      if s == "[[" {
        r := Present(ParseLink(tokens, pos));
      } else if s == "{{" {
        var t := ParseTemplate(tokens, pos);
        r := Present(t);
      } else {
        r := Parsed(None, pos);
      }
  }

  method ParseNodes(tokens: seq<Token>, pos: nat) returns (r: Parse<seq<Node>>)
    requires pos <= |tokens|
    ensures r == NodesFrom(tokens, pos)
    decreases |tokens| - pos, 2
  {
    var nodes: seq<Node> := [];
    var cur := pos;
    PrependNothing(NodesFrom(tokens, pos));
    while true
      invariant pos <= cur <= |tokens|
      invariant NodesFrom(tokens, pos) == Prepend(nodes, NodesFrom(tokens, cur))
      decreases |tokens| - cur
    {
      var step := ParseNode(tokens, cur);
      match step
      case Failed(e) =>
        return Failed(e);
      case Parsed(None, _) =>
        assert nodes + [] == nodes;
        return Parsed(nodes, cur);
      case Parsed(Some(n), next) =>
        PrependTwice(nodes, [n], NodesFrom(tokens, next));
        nodes := nodes + [n];
        cur := next;
    }
  }

  method ParseTemplate(tokens: seq<Token>, pos: nat) returns (r: Parse<Node>)
    requires pos <= |tokens|
    ensures r == TemplateAt(tokens, pos)
    decreases |tokens| - pos, 0
  {
    if Peek(tokens, pos) != Some(Symbol("{{")) {
      return Failed(NoMoreTokens("Expected opening {{"));
    }
    if pos + 1 == |tokens| || !tokens[pos + 1].Text? {
      return Failed(NoMoreTokens("Expected template title"));
    }
    var name := tokens[pos + 1].text;
    var params: seq<TemplateParameter> := [];
    var cur := pos + 2;
    PrependNothing(ParamsFrom(tokens, cur));
    while Peek(tokens, cur) == Some(Symbol("|"))
      invariant pos + 2 <= cur <= |tokens|
      invariant ParamsFrom(tokens, pos + 2) == Prepend(params, ParamsFrom(tokens, cur))
      decreases |tokens| - cur
    {
      var param := ParseTemplateParameter(tokens, cur + 1);
      if param.Failed? {
        return Failed(param.error);
      }
      ParamsStep(tokens, cur, param.value, param.next);
      PrependTwice(params, [param.value], ParamsFrom(tokens, param.next));
      params := params + [param.value];
      cur := param.next;
    }
    assert params + [] == params;
    if Peek(tokens, cur) != Some(Symbol("}}")) {
      return Failed(NoMoreTokens("Expected closing }}"));
    }
    return Parsed(Template(name, params), cur + 1);
  }

  method ParseTemplateParameter(tokens: seq<Token>, pos: nat) returns (r: Parse<TemplateParameter>)
    requires pos <= |tokens|
    ensures r == ParameterAt(tokens, pos)
    decreases |tokens| - pos, 3
  {
    var key := ParseTemplateParameterKey(tokens, pos);
    var nodes := ParseNodes(tokens, key.next);
    if nodes.Failed? {
      return Failed(nodes.error);
    }
    if key.value.Some? {
      r := Parsed(KeyValue(key.value.value, nodes.value), nodes.next);
    } else {
      r := Parsed(Value(nodes.value), nodes.next);
    }
  }

  method ParseSection(tokens: seq<Token>, pos: nat) returns (r: Parse<Option<Section>>)
    requires pos <= |tokens|
    ensures r == SectionAt(tokens, pos)
  {
    var title := ParseTitle(tokens, pos);
    if title.Failed? {
      return Failed(title.error);
    }
    var nodes := ParseNodes(tokens, title.next);
    if nodes.Failed? {
      return Failed(nodes.error);
    }
    if title.value.None? && nodes.value == [] {
      return Parsed(None, nodes.next);
    }
    return Parsed(Some(Section(title.value, nodes.value)), nodes.next);
  }

  method ParseWikitext(tokens: seq<Token>) returns (r: Parse<Document>)
    ensures r == WikitextOf(tokens)
  {
    var sections: seq<Section> := [];
    var cur := 0;
    PrependNothing(SectionsFrom(tokens, 0));
    while true
      invariant cur <= |tokens|
      invariant SectionsFrom(tokens, 0) == Prepend(sections, SectionsFrom(tokens, cur))
      decreases |tokens| - cur
    {
      var step := ParseSection(tokens, cur);
      match step
      case Failed(e) =>
        return Failed(e);
      case Parsed(None, _) =>
        assert sections + [] == sections;
        return Parsed(Document(sections), cur);
      case Parsed(Some(s), next) =>
        PrependTwice(sections, [s], SectionsFrom(tokens, next));
        sections := sections + [s];
        cur := next;
    }
  }

  // ---------------------------------------------------------------------------------------
  // Round trip: writing a document out as tokens and parsing them back gives the document
  // ---------------------------------------------------------------------------------------

  function NodeTokens(n: Node): (ts: seq<Token>)
    ensures |ts| > 0 && StartsNode(ts[0])
    decreases n, 1
  {
    match n
    case PlainText(text) => [Text(text)]
    case Link(link) => [Symbol("[["), Text(link), Symbol("]]")]
    case Template(name, params) => [Symbol("{{"), Text(name)] + ParamsTokens(params) + [Symbol("}}")]
  }

  function NodesTokens(ns: seq<Node>): (ts: seq<Token>)
    ensures |ts| == 0 <==> ns == []
    decreases ns, 0
  {
    if ns == [] then [] else NodeTokens(ns[0]) + NodesTokens(ns[1..])
  }

  function ParamTokens(p: TemplateParameter): (ts: seq<Token>)
    ensures |ts| > 0 && ts[0] == Symbol("|")
    decreases p, 1
  {
    match p
    case KeyValue(key, nodes) => [Symbol("|"), Text(key), Symbol("=")] + NodesTokens(nodes)
    case Value(nodes) => [Symbol("|")] + NodesTokens(nodes)
  }

  function ParamsTokens(ps: seq<TemplateParameter>): (ts: seq<Token>)
    ensures |ts| == 0 <==> ps == []
    ensures |ts| > 0 ==> ts[0] == Symbol("|")
    decreases ps, 0
  {
    if ps == [] then [] else ParamTokens(ps[0]) + ParamsTokens(ps[1..])
  }

  /** The first token of every written node: text, `[[` or `{{`. */
  predicate StartsNode(t: Token)
  {
    t.Text? || t == Symbol("[[") || t == Symbol("{{")
  }

  /** Titles are written at level 2: `== title ==`. */
  function SectionTokens(s: Section): seq<Token>
  {
    match s.title
    case Some(title) => [Symbol("=="), Text(title), Symbol("==")] + NodesTokens(s.content)
    case None => NodesTokens(s.content)
  }

  function SectionsTokens(ss: seq<Section>): seq<Token>
  {
    if ss == [] then [] else SectionTokens(ss[0]) + SectionsTokens(ss[1..])
  }

  /** The documents that writing and parsing back preserves: every section has a title or some
      content, and every section but the first has a title (two untitled sections in a row
      would be read back as one). */
  ghost predicate WellFormed(d: Document)
  {
    && NonEmptySections(d.sections)
    && forall i :: 0 < i < |d.sections| ==> d.sections[i].title.Some?
  }

  /** `tokens` holds `ts` at position `pos`. */
  ghost predicate At(tokens: seq<Token>, pos: nat, ts: seq<Token>)
  {
    pos + |ts| <= |tokens| && forall i {:trigger ts[i]} :: 0 <= i < |ts| ==> tokens[pos + i] == ts[i]
  }

  lemma AtSplit(tokens: seq<Token>, pos: nat, a: seq<Token>, b: seq<Token>)
    requires At(tokens, pos, a + b)
    ensures At(tokens, pos, a) && At(tokens, pos + |a|, b)
  {
    forall i | 0 <= i < |a| ensures tokens[pos + i] == a[i] {
      assert (a + b)[i] == a[i];
    }
    forall i | 0 <= i < |b| ensures tokens[pos + |a| + i] == b[i] {
      assert (a + b)[|a| + i] == b[i];
    }
  }

  lemma AtIndex(tokens: seq<Token>, pos: nat, ts: seq<Token>, i: nat)
    requires At(tokens, pos, ts) && i < |ts|
    ensures tokens[pos + i] == ts[i]
  {
  }

  /** The token right after a template parameter: the next `|` or the closing `}}`. */
  predicate EndsParameter(tokens: seq<Token>, pos: nat)
  {
    pos < |tokens| && (tokens[pos] == Symbol("|") || tokens[pos] == Symbol("}}"))
  }

  // The lemmas take the position where the written tokens end as a parameter `end`, so that
  // the facts about the token there are stated about one and the same term throughout.

  lemma {:induction false} NodeRoundTrip(tokens: seq<Token>, pos: nat, n: Node, end: nat)
    requires At(tokens, pos, NodeTokens(n)) && end == pos + |NodeTokens(n)|
    ensures NodeAt(tokens, pos) == Parsed(Some(n), end)
    decreases n, 1
  {
    var ts := NodeTokens(n);
    AtIndex(tokens, pos, ts, 0);
    match n
    case PlainText(_) =>
    case Link(_) =>
      AtIndex(tokens, pos, ts, 1);
      AtIndex(tokens, pos, ts, 2);
    case Template(name, params) =>
      AtIndex(tokens, pos, ts, 1);
      var pt := ParamsTokens(params);
      assert ts == [Symbol("{{"), Text(name)] + (pt + [Symbol("}}")]);
      AtSplit(tokens, pos, [Symbol("{{"), Text(name)], pt + [Symbol("}}")]);
      AtSplit(tokens, pos + 2, pt, [Symbol("}}")]);
      AtIndex(tokens, pos + 2 + |pt|, [Symbol("}}")], 0);
      ParamsRoundTrip(tokens, pos + 2, params, end - 1);
  }

  /** One turn of the node loop. */
  lemma NodesStep(tokens: seq<Token>, pos: nat, n: Node, next: nat)
    requires pos <= |tokens|
    requires NodeAt(tokens, pos) == Parsed(Some(n), next)
    ensures NodesFrom(tokens, pos) == Prepend([n], NodesFrom(tokens, next))
  {
  }

  lemma {:induction false} NodesRoundTrip(tokens: seq<Token>, pos: nat, ns: seq<Node>, end: nat)
    requires At(tokens, pos, NodesTokens(ns)) && end == pos + |NodesTokens(ns)|
    requires StopsNodes(tokens, end)
    ensures NodesFrom(tokens, pos) == Parsed(ns, end)
    decreases ns, 0
  {
    if ns != [] {
      var head, tail := NodeTokens(ns[0]), NodesTokens(ns[1..]);
      var mid := pos + |head|;
      assert At(tokens, pos, head) && At(tokens, mid, tail) && end == mid + |tail| by {
        assert NodesTokens(ns) == head + tail;
        AtSplit(tokens, pos, head, tail);
      }
      NodeRoundTrip(tokens, pos, ns[0], mid);
      NodesStep(tokens, pos, ns[0], mid);
      NodesRoundTrip(tokens, mid, ns[1..], end);
      assert [ns[0]] + ns[1..] == ns;
    }
  }

  /** Nodes as written followed by a token the node parser rejects: parseNodes rethrows that
      error, whatever it parsed before. */
  lemma {:induction false} NodesError(tokens: seq<Token>, pos: nat, ns: seq<Node>, end: nat)
    requires At(tokens, pos, NodesTokens(ns)) && end == pos + |NodesTokens(ns)|
    requires NodeAt(tokens, end).Failed?
    ensures NodesFrom(tokens, pos) == Failed(NodeAt(tokens, end).error)
    decreases ns
  {
    if ns != [] {
      var head, tail := NodeTokens(ns[0]), NodesTokens(ns[1..]);
      var mid := pos + |head|;
      assert At(tokens, pos, head) && At(tokens, mid, tail) && end == mid + |tail| by {
        assert NodesTokens(ns) == head + tail;
        AtSplit(tokens, pos, head, tail);
      }
      NodeRoundTrip(tokens, pos, ns[0], mid);
      NodesStep(tokens, pos, ns[0], mid);
      NodesError(tokens, mid, ns[1..], end);
    }
  }

  /** A template parameter written without a key is not read back with one: after a leading
      text node comes another node, or the `|` or `}}` that ends the parameter, never `=`. */
  lemma ValueHasNoKey(tokens: seq<Token>, pos: nat, nodes: seq<Node>, end: nat)
    requires At(tokens, pos, NodesTokens(nodes)) && end == pos + |NodesTokens(nodes)|
    requires EndsParameter(tokens, end)
    ensures ParseTemplateParameterKey(tokens, pos) == Parsed(None, pos)
  {
    if nodes != [] {
      var head, tail := NodeTokens(nodes[0]), NodesTokens(nodes[1..]);
      AtSplit(tokens, pos, head, tail);
      AtIndex(tokens, pos, head, 0);
      if head[0].Text? && tail != [] {
        AtSplit(tokens, pos + 1, NodeTokens(nodes[1]), NodesTokens(nodes[2..]));
        AtIndex(tokens, pos + 1, NodeTokens(nodes[1]), 0);
      }
    }
  }

  lemma {:induction false} ParamRoundTrip(tokens: seq<Token>, pos: nat, p: TemplateParameter, end: nat)
    requires At(tokens, pos, ParamTokens(p)) && end == pos + |ParamTokens(p)|
    requires EndsParameter(tokens, end)
    ensures ParameterAt(tokens, pos + 1) == Parsed(p, end)
    decreases p, 1
  {
    var ts := ParamTokens(p);
    match p
    case KeyValue(key, nodes) =>
      AtSplit(tokens, pos, [Symbol("|"), Text(key), Symbol("=")], NodesTokens(nodes));
      AtIndex(tokens, pos, ts, 1);
      AtIndex(tokens, pos, ts, 2);
      NodesRoundTrip(tokens, pos + 3, nodes, end);
    case Value(nodes) =>
      AtSplit(tokens, pos, [Symbol("|")], NodesTokens(nodes));
      ValueHasNoKey(tokens, pos + 1, nodes, end);
      NodesRoundTrip(tokens, pos + 1, nodes, end);
  }

  /** One turn of the parameter loop. */
  lemma ParamsStep(tokens: seq<Token>, pos: nat, p: TemplateParameter, next: nat)
    requires pos < |tokens| && tokens[pos] == Symbol("|")
    requires ParameterAt(tokens, pos + 1) == Parsed(p, next)
    ensures ParamsFrom(tokens, pos) == Prepend([p], ParamsFrom(tokens, next))
  {
  }

  /** A `|` followed by a parameter that fails: the parameter loop rethrows its error. */
  lemma ParamsFirstError(tokens: seq<Token>, pos: nat)
    requires pos < |tokens| && tokens[pos] == Symbol("|") && ParameterAt(tokens, pos + 1).Failed?
    ensures ParamsFrom(tokens, pos) == Failed(ParameterAt(tokens, pos + 1).error)
  {
  }

  lemma {:induction false} ParamsRoundTrip(tokens: seq<Token>, pos: nat, ps: seq<TemplateParameter>, end: nat)
    requires At(tokens, pos, ParamsTokens(ps)) && end == pos + |ParamsTokens(ps)|
    requires end < |tokens| && tokens[end] == Symbol("}}")
    ensures ParamsFrom(tokens, pos) == Parsed(ps, end)
    decreases ps, 0
  {
    if ps != [] {
      var head, tail := ParamTokens(ps[0]), ParamsTokens(ps[1..]);
      var mid := pos + |head|;
      assert At(tokens, pos, head) && At(tokens, mid, tail) && end == mid + |tail|
        && tokens[pos] == Symbol("|") && EndsParameter(tokens, mid) by {
        assert ParamsTokens(ps) == head + tail;
        AtSplit(tokens, pos, head, tail);
        AtIndex(tokens, pos, head, 0);
        if tail != [] {
          AtIndex(tokens, mid, tail, 0);
        }
      }
      ParamRoundTrip(tokens, pos, ps[0], mid);
      ParamsStep(tokens, pos, ps[0], mid);
      ParamsRoundTrip(tokens, mid, ps[1..], end);
      assert [ps[0]] + ps[1..] == ps;
    }
  }

  /** One turn of the section loop. */
  lemma SectionsStep(tokens: seq<Token>, pos: nat, s: Section, next: nat)
    requires pos <= |tokens|
    requires SectionAt(tokens, pos) == Parsed(Some(s), next)
    ensures SectionsFrom(tokens, pos) == Prepend([s], SectionsFrom(tokens, next))
  {
  }

  lemma SectionRoundTrip(tokens: seq<Token>, pos: nat, s: Section, end: nat)
    requires s.title.Some? || s.content != []
    requires At(tokens, pos, SectionTokens(s)) && end == pos + |SectionTokens(s)|
    requires StopsNodes(tokens, end)
    ensures SectionAt(tokens, pos) == Parsed(Some(s), end)
  {
    var nt := NodesTokens(s.content);
    match s.title
    case Some(title) =>
      var tt := [Symbol("=="), Text(title), Symbol("==")];
      AtSplit(tokens, pos, tt, nt);
      AtIndex(tokens, pos, tt, 0);
      AtIndex(tokens, pos, tt, 1);
      AtIndex(tokens, pos, tt, 2);
      assert ParseTitle(tokens, pos) == Parsed(Some(title), pos + 3);
      NodesRoundTrip(tokens, pos + 3, s.content, end);
    case None =>
      AtSplit(tokens, pos, NodeTokens(s.content[0]), NodesTokens(s.content[1..]));
      AtIndex(tokens, pos, NodeTokens(s.content[0]), 0);
      assert ParseTitle(tokens, pos) == Parsed(None, pos);
      NodesRoundTrip(tokens, pos, s.content, end);
  }

  /** Where a section that another titled section follows ends, the node parser stops. */
  lemma TitleStopsNodes(tokens: seq<Token>, pos: nat, ss: seq<Section>)
    requires ss != [] && ss[0].title.Some?
    requires At(tokens, pos, SectionsTokens(ss))
    ensures StopsNodes(tokens, pos) && StartsTitle(tokens, pos)
  {
    var head := SectionTokens(ss[0]);
    assert SectionsTokens(ss) == head + SectionsTokens(ss[1..]);
    AtSplit(tokens, pos, head, SectionsTokens(ss[1..]));
    AtIndex(tokens, pos, head, 0);
  }

  /** `WellFormed`, section by section: the first section has a title or some content, the
      second, if any, has a title, and the sections after the first are well-formed again. */
  ghost predicate WellFormedFrom(ss: seq<Section>)
  {
    ss == [] ||
    ((ss[0].title.Some? || ss[0].content != []) && (|ss| > 1 ==> ss[1].title.Some?) && WellFormedFrom(ss[1..]))
  }

  lemma {:induction false} WellFormedSections(ss: seq<Section>)
    requires WellFormed(Document(ss))
    ensures WellFormedFrom(ss)
    decreases |ss|
  {
    if ss != [] {
      assert forall i :: 0 <= i < |ss[1..]| ==> ss[1..][i] == ss[i + 1];
      WellFormedSections(ss[1..]);
    }
  }

  /** The tokens of a section list are those of its first section followed by those of the rest. */
  lemma SectionsHead(tokens: seq<Token>, pos: nat, ss: seq<Section>)
    requires ss != [] && At(tokens, pos, SectionsTokens(ss))
    ensures At(tokens, pos, SectionTokens(ss[0]))
    ensures At(tokens, pos + |SectionTokens(ss[0])|, SectionsTokens(ss[1..]))
    ensures |SectionsTokens(ss)| == |SectionTokens(ss[0])| + |SectionsTokens(ss[1..])|
  {
    assert SectionsTokens(ss) == SectionTokens(ss[0]) + SectionsTokens(ss[1..]);
    AtSplit(tokens, pos, SectionTokens(ss[0]), SectionsTokens(ss[1..]));
  }

  /** The tokens of the first section and of the sections after it, as the recursive step of
      `SectionsRoundTrip` needs them, when a second section, if any, has a title. */
  lemma {:induction false} SectionsSplit(tokens: seq<Token>, pos: nat, ss: seq<Section>, end: nat)
    requires ss != [] && (|ss| > 1 ==> ss[1].title.Some?)
    requires At(tokens, pos, SectionsTokens(ss)) && end == pos + |SectionsTokens(ss)|
    requires StopsNodes(tokens, end)
    ensures At(tokens, pos, SectionTokens(ss[0]))
    ensures StopsNodes(tokens, pos + |SectionTokens(ss[0])|)
    ensures At(tokens, pos + |SectionTokens(ss[0])|, SectionsTokens(ss[1..]))
    ensures end == pos + |SectionTokens(ss[0])| + |SectionsTokens(ss[1..])|
  {
    SectionsHead(tokens, pos, ss);
    if |ss| == 1 {
      assert SectionsTokens(ss[1..]) == [];
    } else {
      TitleStopsNodes(tokens, pos + |SectionTokens(ss[0])|, ss[1..]);
    }
  }

  /** The section parser, called in turn from `pos`, returns the sections `ss` one after the
      other and stops at `end`. */
  ghost predicate SectionsInTurn(tokens: seq<Token>, pos: nat, ss: seq<Section>, end: nat)
    decreases ss
  {
    if ss == [] then pos == end
    else
      var mid := pos + |SectionTokens(ss[0])|;
      pos <= |tokens| && SectionAt(tokens, pos) == Parsed(Some(ss[0]), mid)
      && SectionsInTurn(tokens, mid, ss[1..], end)
  }

  /** Well-formed sections written at `pos` and followed by a token that stops the node
      parser are read back one by one. */
  lemma {:induction false} SectionsReadInTurn(tokens: seq<Token>, pos: nat, ss: seq<Section>, end: nat)
    requires WellFormedFrom(ss)
    requires At(tokens, pos, SectionsTokens(ss)) && end == pos + |SectionsTokens(ss)|
    requires StopsNodes(tokens, end)
    ensures SectionsInTurn(tokens, pos, ss, end)
    decreases ss
  {
    if ss != [] {
      var mid := pos + |SectionTokens(ss[0])|;
      SectionsSplit(tokens, pos, ss, end);
      SectionRoundTrip(tokens, pos, ss[0], mid);
      SectionsReadInTurn(tokens, mid, ss[1..], end);
    }
  }

  lemma {:induction false} SectionsRoundTrip(tokens: seq<Token>, pos: nat, ss: seq<Section>, end: nat)
    requires pos <= |tokens| && SectionsInTurn(tokens, pos, ss, end)
    requires StopsNodes(tokens, end) && !StartsTitle(tokens, end)
    ensures SectionsFrom(tokens, pos) == Parsed(ss, end)
    decreases ss
  {
    if ss != [] {
      var mid := pos + |SectionTokens(ss[0])|;
      SectionsRoundTrip(tokens, mid, ss[1..], end);
      SectionsStep(tokens, pos, ss[0], mid);
      assert [ss[0]] + ss[1..] == ss;
    }
  }

  /** Sections read in turn followed by a section the section parser rejects: the section loop
      rethrows that error, whatever it parsed before. */
  lemma {:induction false} SectionsError(tokens: seq<Token>, pos: nat, ss: seq<Section>, end: nat)
    requires pos <= |tokens| && SectionsInTurn(tokens, pos, ss, end)
    requires end <= |tokens| && SectionAt(tokens, end).Failed?
    ensures SectionsFrom(tokens, pos) == Failed(SectionAt(tokens, end).error)
    decreases ss
  {
    if ss != [] {
      var mid := pos + |SectionTokens(ss[0])|;
      SectionsError(tokens, mid, ss[1..], end);
      SectionsStep(tokens, pos, ss[0], mid);
    }
  }

  /** A well-formed document written out and followed by a section the section parser rejects:
      parseWikitext rethrows that error, in whichever section it lies. */
  lemma LaterSectionError(tokens: seq<Token>, ss: seq<Section>, end: nat)
    requires WellFormed(Document(ss))
    requires At(tokens, 0, SectionsTokens(ss)) && end == |SectionsTokens(ss)|
    requires StopsNodes(tokens, end) && SectionAt(tokens, end).Failed?
    ensures WikitextOf(tokens) == Failed(SectionAt(tokens, end).error)
  {
    WellFormedSections(ss);
    SectionsReadInTurn(tokens, 0, ss, end);
    SectionsError(tokens, 0, ss, end);
  }

  /** A document whose first section, written out, is followed by a token the node parser
      rejects: parseWikitext rethrows that error. */
  lemma FirstSectionError(tokens: seq<Token>, s: Section, end: nat)
    requires At(tokens, 0, SectionTokens(s)) && end == |SectionTokens(s)|
    requires NodeAt(tokens, end).Failed?
    ensures WikitextOf(tokens) == Failed(NodeAt(tokens, end).error)
  {
    var nt := NodesTokens(s.content);
    match s.title
    case Some(title) =>
      var tt := [Symbol("=="), Text(title), Symbol("==")];
      AtSplit(tokens, 0, tt, nt);
      AtIndex(tokens, 0, tt, 0);
      AtIndex(tokens, 0, tt, 1);
      AtIndex(tokens, 0, tt, 2);
      assert ParseTitle(tokens, 0) == Parsed(Some(title), 3);
      NodesError(tokens, 3, s.content, end);
    case None =>
      if s.content != [] {
        AtSplit(tokens, 0, NodeTokens(s.content[0]), NodesTokens(s.content[1..]));
        AtIndex(tokens, 0, NodeTokens(s.content[0]), 0);
      }
      assert ParseTitle(tokens, 0) == Parsed(None, 0);
      NodesError(tokens, 0, s.content, end);
  }

  /** Text followed by `[[` and a symbol where the link text belongs: the whole parse fails
      with the link parser's error. */
  lemma UnfinishedLinkFails()
    ensures WikitextOf([Text("a"), Symbol("[["), Symbol("|")]) == Failed(NoMoreTokens("Expected link"))
  {
  }

  /** Two titled sections whose second one holds an unfinished link: the whole parse fails
      with the link parser's error. */
  lemma SecondSectionLinkFails()
    ensures WikitextOf([Symbol("=="), Text("a"), Symbol("=="), Text("b"), Symbol("=="), Text("c"),
                        Symbol("=="), Text("d"), Symbol("[["), Symbol("|")])
            == Failed(NoMoreTokens("Expected link"))
  {
    var tokens := [Symbol("=="), Text("a"), Symbol("=="), Text("b"), Symbol("=="), Text("c"),
                   Symbol("=="), Text("d"), Symbol("[["), Symbol("|")];
    var ss := [Section(Some("a"), [PlainText("b")])];
    assert SectionsTokens(ss) == tokens[..4];
    assert NodesFrom(tokens, 7) == Failed(NoMoreTokens("Expected link")) by {
      NodesError(tokens, 7, [PlainText("d")], 8);
    }
    LaterSectionError(tokens, ss, 4);
  }

  /** Parsing the tokens of a well-formed document gives the document back, whatever follows
      it, as long as what follows starts neither a title nor a node. */
  lemma DocumentRoundTrip(d: Document, rest: seq<Token>)
    requires WellFormed(d)
    requires rest == [] || (rest[0].Symbol? && !StartsNode(rest[0]) && !StartsTitle(rest, 0))
    ensures WikitextOf(SectionsTokens(d.sections) + rest) == Parsed(d, |SectionsTokens(d.sections)|)
  {
    var ts := SectionsTokens(d.sections);
    var tokens := ts + rest;
    assert forall i :: 0 <= i < |ts| ==> tokens[i] == ts[i];
    WellFormedSections(d.sections);
    SectionsReadInTurn(tokens, 0, d.sections, |ts|);
    SectionsRoundTrip(tokens, 0, d.sections, |ts|);
  }
}

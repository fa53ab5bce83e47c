/** getProperty (pkg/vdcapi/pbuf_encode.go): a property tree is projected by a query and the
    projection is sent as property elements. Go maps have no order, so the answer is judged
    by its facts: which value stands at which path. */
module PropertyQuery {
  import opened Wire
  import opened PropertyCodec
  import opened Framing
  import opened SeqFacts

  /** The shapes of Go values the converter tells apart. */
  datatype Node =
    | Leaf(v: Value)
    | Obj(members: map<Bytes, Node>)
    | List(items: seq<Node>)
    | Strings(texts: seq<Bytes>)

  /** "", " " and "*". */
  predicate Wildcard(name: Bytes) {
    name == [] || name == [32] || name == [42]
  }

  /** The index as fmt prints it. */
  function Decimal(n: nat): Bytes {
    if n < 10 then [48 + n] else Decimal(n / 10) + [48 + n % 10]
  }

  function DecimalValue(s: Bytes): int {
    if s == [] then 0 else 10 * DecimalValue(s[..|s| - 1]) + (s[|s| - 1] as int - 48)
  }

  lemma {:induction false} DecimalRoundTrip(n: nat)
    ensures DecimalValue(Decimal(n)) == n
    ensures forall i :: 0 <= i < |Decimal(n)| ==> 48 <= Decimal(n)[i] <= 57
    ensures |Decimal(n)| > 1 ==> Decimal(n)[0] != 48
  {
    if n < 10 {
      assert DecimalValue([48 + n][..0]) == 0;
    } else {
      DecimalRoundTrip(n / 10);
      assert Decimal(n)[..|Decimal(n)| - 1] == Decimal(n / 10);
    }
  }

  function NodeValue(node: Node): Value {
    if node.Leaf? then node.v else Nil
  }

  // ---------------------------------------------------------- specification

  /** `v` stands at `path` in what the query selects from below `node`. An empty query and a
      wildcard select everything below; a name narrows a map; lists are never narrowed. */
  ghost predicate Selected(node: Node, query: seq<Element>, path: seq<Bytes>, v: Value)
    decreases path
  {
    path != [] &&
    match node
    case Leaf(_) => false
    case Obj(m) =>
      && path[0] in m
      && (|| (query == [] && Reached(m[path[0]], [], path, v))
          || exists i :: 0 <= i < |query| && Picks(query[i], m[path[0]], path, v))
    case List(items) => exists i :: 0 <= i < |items| && ItemFact(items, i, path, v)
    case Strings(texts) => exists i :: 0 <= i < |texts| && TextFact(texts, i, path, v)
  }

  /** What one query element selects of the member `child` named `path[0]`. */
  ghost predicate Picks(q: Element, child: Node, path: seq<Bytes>, v: Value)
    requires path != []
    decreases path, 2
  {
    if q.name == [] || q.name == [32] || q.name == [42] then Reached(child, [], path, v)
    else q.name == path[0] && Reached(child, q.elements, path, v)
  }

  ghost predicate ItemFact(items: seq<Node>, i: nat, path: seq<Bytes>, v: Value)
    requires i < |items|
    decreases path, 2
  {
    path != [] && path[0] == Decimal(i) && Reached(items[i], [], path, v)
  }

  ghost predicate TextFact(texts: seq<Bytes>, i: nat, path: seq<Bytes>, v: Value)
    requires i < |texts|
  {
    path == [Decimal(i)] && v == Text(texts[i])
  }

  /** The path ends at `child`, or goes on to something selected below it. */
  ghost predicate Reached(child: Node, query: seq<Element>, path: seq<Bytes>, v: Value)
    requires path != []
    decreases path, 1
  {
    if |path| == 1 then v == NodeValue(child) else Selected(child, query, path[1..], v)
  }

  /** The facts of a list of property elements. */
  ghost predicate HasFact(es: seq<Element>, path: seq<Bytes>, v: Value)
    decreases path, 1
  {
    exists i :: 0 <= i < |es| && FactOf(es[i], path, v)
  }

  ghost predicate FactOf(e: Element, path: seq<Bytes>, v: Value)
    decreases path, 0
  {
    path != [] && e.name == path[0] &&
    if |path| == 1 then e.value == v else HasFact(e.elements, path[1..], v)
  }

  ghost predicate Projects(es: seq<Element>, node: Node, query: seq<Element>) {
    forall path, v :: HasFact(es, path, v) <==> Selected(node, query, path, v)
  }

  /** Element `e` stands for `node` under `name`, narrowed by `query`. */
  ghost predicate Shows(e: Element, name: Bytes, node: Node, query: seq<Element>) {
    e.name == name && e.value == NodeValue(node) && Projects(e.elements, node, query)
  }

  lemma ShowsFact(e: Element, name: Bytes, node: Node, query: seq<Element>, path: seq<Bytes>, v: Value)
    requires Shows(e, name, node, query)
    ensures FactOf(e, path, v) <==> path != [] && path[0] == name && Reached(node, query, path, v)
  {
  }

  // ------------------------------------- the answer element by element, repeats included

  /** `e` is the one element for `node` under `name`: value, shape and everything below. */
  ghost predicate Renders(e: Element, name: Bytes, node: Node, query: seq<Element>)
    decreases node, 3
  {
    && e.name == name && e.value == NodeValue(node)
    && match node
       case Leaf(_) => e.elements == []
       case Obj(_) => Answers(e.elements, node, query)
       case List(items) =>
         && |e.elements| == |items|
         && forall i :: 0 <= i < |items| ==> Renders(e.elements[i], Decimal(i), items[i], [])
       case Strings(texts) =>
         && |e.elements| == |texts|
         && forall i :: 0 <= i < |texts| ==> e.elements[i] == Element(Decimal(i), Text(texts[i]), [])
  }

  /** The whole map for an empty query, else what each query element asks for, one after another:
      a member named twice is there twice. */
  ghost predicate Answers(es: seq<Element>, node: Node, query: seq<Element>)
    requires node.Obj?
    decreases node, 2
  {
    if query == [] then IsWhole(es, node)
    else exists blocks: seq<seq<Element>> :: AnswersIn(blocks, node, query) && es == Flat(blocks)
  }

  ghost predicate AnswersIn(blocks: seq<seq<Element>>, node: Node, query: seq<Element>)
    requires node.Obj?
    decreases node, 1, |query| + 1
  {
    |blocks| == |query| && forall i :: 0 <= i < |query| ==> AnswersOne(blocks[i], node, query[i])
  }

  ghost predicate AnswersOne(b: seq<Element>, node: Node, q: Element)
    requires node.Obj?
    decreases node, 1, 0
  {
    if q.name == [] || q.name == [32] || q.name == [42] then IsWhole(b, node)
    else if q.name in node.members then |b| == 1 && Renders(b[0], q.name, node.members[q.name], q.elements)
    else b == []
  }

  /** Every member of the map once, in some order. */
  ghost predicate IsWhole(b: seq<Element>, node: Node)
    requires node.Obj?
    decreases node, 0, 1
  {
    IsPart(b, node, node.members.Keys)
  }

  ghost predicate IsPart(b: seq<Element>, node: Node, names: set<Bytes>)
    requires node.Obj?
    decreases node, 0, 0
  {
    && (forall i, j :: 0 <= i < j < |b| ==> b[i].name != b[j].name)
    && (set i | 0 <= i < |b| :: b[i].name) == names
    && forall i :: 0 <= i < |b| ==>
         b[i].name in node.members && Renders(b[i], b[i].name, node.members[b[i].name], [])
  }

  // --------------------------------------------- such an answer holds what was asked for

  /** An element that renders a node holds exactly what the query selects of it. */
  lemma {:induction false} RendersShows(e: Element, name: Bytes, node: Node, query: seq<Element>)
    requires Renders(e, name, node, query)
    ensures Shows(e, name, node, query)
    decreases node, 3
  {
    match node {
      case Leaf(_) =>
      case Obj(_) => AnswersProject(e.elements, node, query);
      case List(items) =>
        forall i | 0 <= i < |items| ensures Shows(e.elements[i], Decimal(i), items[i], []) {
          RendersShows(e.elements[i], Decimal(i), items[i], []);
        }
        ItemsProject(e.elements, node, query);
      case Strings(texts) =>
        TextsProject(e.elements, node, query);
    }
  }

  lemma ItemsProject(es: seq<Element>, node: Node, query: seq<Element>)
    requires node.List? && |es| == |node.items|
    requires forall i :: 0 <= i < |es| ==> Shows(es[i], Decimal(i), node.items[i], [])
    ensures Projects(es, node, query)
  {
    hide Shows, Decimal;
    forall path, v ensures HasFact(es, path, v) <==> Selected(node, query, path, v) {
      forall i | 0 <= i < |es| ensures FactOf(es[i], path, v) <==> ItemFact(node.items, i, path, v) {
        ShowsFact(es[i], Decimal(i), node.items[i], [], path, v);
      }
    }
  }

  lemma TextsProject(es: seq<Element>, node: Node, query: seq<Element>)
    requires node.Strings? && |es| == |node.texts|
    requires forall i :: 0 <= i < |es| ==> es[i] == Element(Decimal(i), Text(node.texts[i]), [])
    ensures Projects(es, node, query)
  {
    hide Decimal;
    forall path, v ensures HasFact(es, path, v) <==> Selected(node, query, path, v) {
      forall i | 0 <= i < |es| ensures FactOf(es[i], path, v) <==> TextFact(node.texts, i, path, v) {
        assert path != [] ==> path == [path[0]] + path[1..];
      }
    }
  }

  lemma {:induction false} AnswersProject(es: seq<Element>, node: Node, query: seq<Element>)
    requires node.Obj? && Answers(es, node, query)
    ensures Projects(es, node, query)
    decreases node, 2
  {
    if query == [] {
      WholeProjects(es, node);
    } else {
      var blocks :| AnswersIn(blocks, node, query) && es == Flat(blocks);
      forall path, v ensures HasFact(es, path, v) <==> Selected(node, query, path, v) {
        forall i | 0 <= i < |query| ensures HasFact(blocks[i], path, v) <==> Chosen(query[i], node, path, v) {
          assert AnswersOne(blocks[i], node, query[i]);
          BlockHolds(blocks[i], node, query[i], path, v);
        }
        FlatHolds(blocks, path, v);
        hide HasFact, Reached, AnswersIn, Answers;
      }
    }
  }

  /** What one element of a query selects of a map. */
  ghost predicate Chosen(q: Element, node: Node, path: seq<Bytes>, v: Value)
    requires node.Obj?
  {
    path != [] && path[0] in node.members && Picks(q, node.members[path[0]], path, v)
  }

  lemma {:induction false} FlatHolds(blocks: seq<seq<Element>>, path: seq<Bytes>, v: Value)
    ensures HasFact(Flat(blocks), path, v) <==> exists i :: 0 <= i < |blocks| && HasFact(blocks[i], path, v)
  {
    if blocks != [] {
      FlatHolds(Init(blocks), path, v);
      HoldsEither(Flat(Init(blocks)), Last(blocks), path, v);
      hide HasFact;
      assert forall i :: 0 <= i < |blocks| - 1 ==> blocks[i] == Init(blocks)[i];
    }
  }

  lemma HoldsEither(a: seq<Element>, b: seq<Element>, path: seq<Bytes>, v: Value)
    ensures HasFact(a + b, path, v) <==> HasFact(a, path, v) || HasFact(b, path, v)
  {
    hide FactOf;
    assert forall i :: 0 <= i < |a| ==> (a + b)[i] == a[i];
    assert forall i :: 0 <= i < |b| ==> (a + b)[|a| + i] == b[i];
  }

  lemma {:induction false} BlockHolds(b: seq<Element>, node: Node, q: Element, path: seq<Bytes>, v: Value)
    requires node.Obj? && AnswersOne(b, node, q)
    ensures HasFact(b, path, v) <==> Chosen(q, node, path, v)
    decreases node, 1, 1
  {
    if q.name == [] || q.name == [32] || q.name == [42] {
      WholeProjects(b, node);
    } else if q.name in node.members {
      RendersShows(b[0], q.name, node.members[q.name], q.elements);
      ShowsFact(b[0], q.name, node.members[q.name], q.elements, path, v);
    }
  }

  lemma {:induction false} WholeProjects(b: seq<Element>, node: Node)
    requires node.Obj? && IsWhole(b, node)
    ensures Projects(b, node, [])
    decreases node, 1, 0
  {
    forall i | 0 <= i < |b| ensures Shows(b[i], b[i].name, node.members[b[i].name], []) {
      RendersShows(b[i], b[i].name, node.members[b[i].name], []);
    }
    hide Shows, Renders;
    forall path, v ensures HasFact(b, path, v) <==> Selected(node, [], path, v) {
      forall i | 0 <= i < |b|
        ensures FactOf(b[i], path, v) <==>
                path != [] && path[0] == b[i].name && Reached(node.members[b[i].name], [], path, v)
      {
        ShowsFact(b[i], b[i].name, node.members[b[i].name], [], path, v);
      }
      if Selected(node, [], path, v) {
        assert path[0] in (set i | 0 <= i < |b| :: b[i].name);
      }
    }
  }

  // ------------------------------------------------------------- the source

  lemma PartGrows(b: seq<Element>, node: Node, names: set<Bytes>, e: Element)
    requires node.Obj? && IsPart(b, node, names) && e.name !in names
    requires e.name in node.members && Renders(e, e.name, node.members[e.name], [])
    ensures IsPart(b + [e], node, names + {e.name})
  {
    var all := b + [e];
    forall i | 0 <= i < |b| ensures all[i].name != e.name {
      assert b[i].name in (set k | 0 <= k < |b| :: b[k].name);
    }
    assert all[|b|] == e;
    forall n ensures n in (set i | 0 <= i < |all| :: all[i].name) <==> n in names + {e.name} {
      if n in names {
        var i :| 0 <= i < |b| && b[i].name == n;
        assert all[i].name == n;
      }
    }
  }

  /** Appends every member of a map, in whatever order the map is walked. */
  method AppendMembers(res: seq<Element>, node: Node) returns (out: seq<Element>, ghost added: seq<Element>)
    requires node.Obj?
    ensures out == res + added && IsWhole(added, node)
    ensures (forall i, j :: 0 <= i < j < |added| ==> added[i].name != added[j].name)
    ensures forall path, v :: HasFact(added, path, v) <==> Selected(node, [], path, v)
    decreases node, 0
  {
    var m := node.members;
    var todo := m.Keys;
    out, added := res, [];
    hide Renders;
    while todo != {}
      invariant todo <= m.Keys && out == res + added && IsPart(added, node, m.Keys - todo)
    {
      var k :| k in todo;
      var e := ConvertValueToProperty(k, m[k], []);
      PartGrows(added, node, m.Keys - todo, e);
      out, added := out + [e], added + [e];
      todo := todo - {k};
    }
    assert m.Keys - todo == m.Keys;
    WholeProjects(added, node);
  }

  /** The answer to a query about one map: top level and nested maps share this loop. */
  method SelectMembers(node: Node, query: seq<Element>) returns (res: seq<Element>)
    requires node.Obj?
    ensures Projects(res, node, query) && Answers(res, node, query)
    ensures query == [] || (exists j :: 0 <= j < |query| &&
                              (query[j].name == [] || query[j].name == [32] || query[j].name == [42])) ==>
              forall path, v :: HasFact(res, path, v) <==> Selected(node, [], path, v)
    ensures query != [] && (forall j :: 0 <= j < |query| ==>
                              query[j].name != [] && query[j].name != [32] && query[j].name != [42]) ==>
              forall path, v :: HasFact(res, path, v) ==> exists j :: 0 <= j < |query| && query[j].name == path[0]
    decreases node, 1
  {
    ghost var added: seq<Element>;
    if query == [] {
      res, added := AppendMembers([], node);
      assert res == added;
      AnswersProject(res, node, query);
      return;
    }
    res := [];
    var m := node.members;
    ghost var blocks: seq<seq<Element>> := [];
    hide Renders, IsWhole;
    for j := 0 to |query|
      invariant AnswersIn(blocks, node, query[..j]) && res == Flat(blocks)
    {
      var q := query[j];
      added := [];
      if Wildcard(q.name) {
        res, added := AppendMembers(res, node);
      } else if q.name in m {
        var e := ConvertValueToProperty(q.name, m[q.name], q.elements);
        res, added := res + [e], [e];
      }
      AnswersNext(blocks, node, query, j, added);
      blocks := blocks + [added];
    }
    assert query[..|query|] == query;
    AnswersProject(res, node, query);
    NamesDecide(res, node, query);
  }

  lemma AnswersNext(blocks: seq<seq<Element>>, node: Node, query: seq<Element>, j: nat, b: seq<Element>)
    requires node.Obj? && j < |query| && AnswersIn(blocks, node, query[..j]) && AnswersOne(b, node, query[j])
    ensures AnswersIn(blocks + [b], node, query[..j + 1]) && Flat(blocks + [b]) == Flat(blocks) + b
  {
    hide AnswersOne;
    InitLast(blocks, b);
    forall i | 0 <= i <= j ensures AnswersOne((blocks + [b])[i], node, query[..j + 1][i]) {
      if i < j { assert AnswersOne(blocks[i], node, query[..j][i]); }
    }
  }

  method ConvertValueToProperty(name: Bytes, node: Node, query: seq<Element>) returns (e: Element)
    ensures Shows(e, name, node, query) && Renders(e, name, node, query)
    decreases node, 2
  {
    match node {
      case Leaf(v) =>
        e := Element(name, v, []);
      case Obj(_) =>
        var es := SelectMembers(node, query);
        e := Element(name, Nil, es);
      case List(items) =>
        var es := ConvertItems(items);
        e := Element(name, Nil, es);
      case Strings(texts) =>
        var es := ConvertTexts(texts);
        e := Element(name, Nil, es);
    }
    RendersShows(e, name, node, query);
  }

  method ConvertItems(items: seq<Node>) returns (es: seq<Element>)
    ensures |es| == |items| && forall i :: 0 <= i < |items| ==> Renders(es[i], Decimal(i), items[i], [])
    decreases items, 2
  {
    es := [];
    hide Renders;
    for i := 0 to |items|
      invariant |es| == i && forall k :: 0 <= k < i ==> Renders(es[k], Decimal(k), items[k], [])
    {
      var item := ConvertValueToProperty(Decimal(i), items[i], []);
      es := es + [item];
    }
  }

  method ConvertTexts(texts: seq<Bytes>) returns (es: seq<Element>)
    ensures |es| == |texts| && forall i :: 0 <= i < |texts| ==> es[i] == Element(Decimal(i), Text(texts[i]), [])
  {
    es := [];
    for i := 0 to |texts|
      invariant |es| == i && forall k :: 0 <= k < i ==> es[k] == Element(Decimal(k), Text(texts[k]), [])
    {
      var item := Element(Decimal(i), Text(texts[i]), []);
      es := es + [item];
    }
  }

  // ---------------------------------------------------- laws of the projection

  /** Narrowing never adds: what any query selects, the empty query selects too. */
  lemma {:induction false} SelectedIsInTree(node: Node, query: seq<Element>, path: seq<Bytes>, v: Value)
    requires Selected(node, query, path, v)
    ensures Selected(node, [], path, v)
    decreases path, 1
  {
    if node.Obj? && query != [] {
      var i :| 0 <= i < |query| && Picks(query[i], node.members[path[0]], path, v);
      if !Wildcard(query[i].name) {
        ReachedIsInTree(node.members[path[0]], query[i].elements, path, v);
      }
    }
  }

  lemma {:induction false} ReachedIsInTree(child: Node, query: seq<Element>, path: seq<Bytes>, v: Value)
    requires path != [] && Reached(child, query, path, v)
    ensures Reached(child, [], path, v)
    decreases path, 0
  {
    if |path| > 1 { SelectedIsInTree(child, query, path[1..], v); }
  }

  /** One wildcard anywhere in the query makes it the empty query. */
  lemma WildcardSelectsAll(node: Node, query: seq<Element>, i: nat, path: seq<Bytes>, v: Value)
    requires i < |query| && (query[i].name == [] || query[i].name == [32] || query[i].name == [42])
    ensures Selected(node, query, path, v) <==> Selected(node, [], path, v)
  {
    if Selected(node, query, path, v) {
      SelectedIsInTree(node, query, path, v);
    }
    if Selected(node, [], path, v) && node.Obj? {
      assert Picks(query[i], node.members[path[0]], path, v);
    }
  }

  /** A query element with any other name selects, of a map, the member of that name and of it
      what its own elements select. */
  lemma NameSelectsMember(node: Node, q: Element, path: seq<Bytes>, v: Value)
    requires node.Obj? && q.name != [] && q.name != [32] && q.name != [42]
    ensures Selected(node, [q], path, v) <==>
              && path != [] && path[0] == q.name && q.name in node.members
              && Reached(node.members[q.name], q.elements, path, v)
  {
    var query := [q];
    assert query[0] == q;
    if path != [] && path[0] == q.name && q.name in node.members && Reached(node.members[q.name], q.elements, path, v) {
      assert Picks(query[0], node.members[path[0]], path, v);
    }
  }

  /** The same one level down: a wildcard inside a named element opens the whole member. */
  lemma NestedWildcard(node: Node, name: Bytes, value: Value, w: Element, path: seq<Bytes>, v: Value)
    requires node.Obj? && name != [] && name != [32] && name != [42]
    requires w.name == [] || w.name == [32] || w.name == [42]
    ensures Selected(node, [Element(name, value, [w])], path, v)
       <==> Selected(node, [Element(name, value, [])], path, v)
  {
    NameSelectsMember(node, Element(name, value, [w]), path, v);
    NameSelectsMember(node, Element(name, value, []), path, v);
    if |path| > 1 && name in node.members {
      WildcardSelectsAll(node.members[name], [w], 0, path[1..], v);
    }
  }

  /** What the names of a query mean for any list of elements that answers it. */
  lemma NamesDecide(es: seq<Element>, node: Node, query: seq<Element>)
    requires node.Obj? && Projects(es, node, query)
    ensures (exists j :: && 0 <= j < |query|
                         && (query[j].name == [] || query[j].name == [32] || query[j].name == [42])) ==>
              forall path, v :: HasFact(es, path, v) <==> Selected(node, [], path, v)
    ensures query != [] && (forall j :: 0 <= j < |query| ==>
                              query[j].name != [] && query[j].name != [32] && query[j].name != [42]) ==>
              forall path, v :: HasFact(es, path, v) ==> exists j :: 0 <= j < |query| && query[j].name == path[0]
  {
    if j :| 0 <= j < |query| && (query[j].name == [] || query[j].name == [32] || query[j].name == [42]) {
      forall path, v ensures HasFact(es, path, v) <==> Selected(node, [], path, v) {
        WildcardSelectsAll(node, query, j, path, v);
      }
    } else if query != [] {
      forall path, v | HasFact(es, path, v) ensures exists j :: 0 <= j < |query| && query[j].name == path[0] {
        assert Selected(node, query, path, v);
        var j :| 0 <= j < |query| && Picks(query[j], node.members[path[0]], path, v);
        assert query[j].name == path[0];
      }
    }
  }

  /** A path leads to one value at most, so the facts are the tree. */
  lemma {:induction false} SelectedIsFunctional(node: Node, path: seq<Bytes>, v: Value, w: Value)
    requires Selected(node, [], path, v) && Selected(node, [], path, w)
    ensures v == w
    decreases path
  {
    match node {
      case Obj(m) =>
        if |path| > 1 { SelectedIsFunctional(m[path[0]], path[1..], v, w); }
      case List(items) =>
        var i :| 0 <= i < |items| && ItemFact(items, i, path, v);
        var k :| 0 <= k < |items| && ItemFact(items, k, path, w);
        DecimalRoundTrip(i);
        DecimalRoundTrip(k);
        assert i == k && Reached(items[i], [], path, v) && Reached(items[i], [], path, w);
        if |path| > 1 { SelectedIsFunctional(items[i], path[1..], v, w); }
      case Strings(texts) =>
        var i :| 0 <= i < |texts| && TextFact(texts, i, path, v);
        var k :| 0 <= k < |texts| && TextFact(texts, k, path, w);
        DecimalRoundTrip(i);
        DecimalRoundTrip(k);
    }
  }

  // ------------------------------------------------------ through the wire

  lemma {:induction false} NormalFact(es: seq<Element>, path: seq<Bytes>, w: Value)
    ensures HasFact(NormalList(es), path, w) <==> exists v :: HasFact(es, path, v) && NormalValue(v) == w
    decreases path
  {
    forall i | 0 <= i < |es|
      ensures FactOf(Normal(es[i]), path, w) <==> exists v :: FactOf(es[i], path, v) && NormalValue(v) == w
    {
      if |path| > 1 {
        NormalFact(es[i].elements, path[1..], w);
        assert forall v :: FactOf(es[i], path, v) <==> es[i].name == path[0] && HasFact(es[i].elements, path[1..], v);
      } else if |path| == 1 && es[i].name == path[0] {
        assert FactOf(es[i], path, es[i].value);
      }
    }
    var ns := NormalList(es);
    if HasFact(ns, path, w) {
      var i :| 0 <= i < |ns| && FactOf(ns[i], path, w);
      var v :| FactOf(es[i], path, v) && NormalValue(v) == w;
      assert HasFact(es, path, v);
    }
    if v :| HasFact(es, path, v) && NormalValue(v) == w {
      var i :| 0 <= i < |es| && FactOf(es[i], path, v);
      assert FactOf(ns[i], path, w);
    }
  }

  const RESPONSE_GET_PROPERTY := 5
  const GET_PROPERTY_FIELD := 103

  /** How a receiver reads the repeated property elements of field 1. */
  function DecodeProperties(acc: seq<Element>, body: Bytes): Parsed<seq<Element>>
    decreases |body|
  {
    if body == [] then Good(acc)
    else
      match ConsumeTag(body)
      case Malformed => Bad
      case Read(tag, b) =>
        if tag.num == 1 then
          if tag.wireType != LENGTH_DELIMITED then Bad
          else
            match ConsumeBytes(b)
            case Malformed => Bad
            case Read(s, rest) =>
              match ParseElement(s)
              case Bad => Bad
              case Good(e) => DecodeProperties(acc + [e], rest)
        else
          match SkipField(tag.num, tag.wireType, b, RECURSION_LIMIT)
          case Malformed => Bad
          case Read(_, rest) => DecodeProperties(acc, rest)
  }

  lemma DecodeOne(acc: seq<Element>, s: Bytes, e: Element, rest: Bytes)
    requires |s| < U64_LIMIT && ParseElement(s) == Good(e)
    ensures DecodeProperties(acc, Field(1, s) + rest) == DecodeProperties(acc + [e], rest)
  {
    FieldRoundTrip(1, s, rest);
  }

  /** The receiver skips what is no property, and takes no property but a length-delimited one. */
  lemma OtherFieldsAreSkipped(acc: seq<Element>, u: Unknown, wireType: WireType, rest: Bytes)
    requires WellFormed(u) && u.num > 1 && Nesting(u) <= 10001 && wireType != 2
    ensures DecodeProperties(acc, AppendTag(u.num, TypeOf(u)) + (Body(u) + rest)) == DecodeProperties(acc, rest)
    ensures DecodeProperties(acc, AppendTag(1, wireType) + rest) == Bad
  {
    TagRoundTrip(u.num, TypeOf(u), Body(u) + rest);
    TagRoundTrip(1, wireType, rest);
    SkipLeavesRest(u, rest, RECURSION_LIMIT);
    hide AppendTag, ConsumeTag, SkipField, Body;
  }

  lemma {:induction false} PropertiesRoundTrip(acc: seq<Element>, es: seq<Element>)
    requires |EncodeList(1, es)| < U64_LIMIT
    ensures DecodeProperties(acc, EncodeList(1, es)) == Good(acc + NormalList(es))
    decreases |es|
  {
    if es == [] {
      assert acc + [] == acc;
    } else {
      hide DecodeProperties, EncodeElement, Normal, AppendVarint, ParseElement;
      EncodeListSizes(1, es);
      ElementRoundTrip(es[0]);
      DecodeOne(acc, EncodeElement(es[0]), Normal(es[0]), EncodeList(1, es[1..]));
      PropertiesRoundTrip(acc + [Normal(es[0])], es[1..]);
      assert acc + NormalList(es) == acc + [Normal(es[0])] + NormalList(es[1..]);
    }
  }

  /** buildPbufGetPropertyResponse. */
  method BuildGetPropertyResponse(msgID: nat, hasID: bool, props: seq<Element>) returns (frame: Bytes)
    ensures frame == BuildFrame(Payload(RESPONSE_GET_PROPERTY, msgID, hasID, GET_PROPERTY_FIELD, EncodeList(1, props)))
  {
    hide EncodeList, AppendTag, AppendBytes, AppendVarint, EncodeElement, BuildFrame, Payload;
    var body := [];
    EncodeListNone(1, props);
    for i := 0 to |props|
      invariant body == EncodeList(1, props[..i])
    {
      var pe := EncodePropertyElement(props[i]);
      EncodeListStep(1, props, i);
      body := body + AppendTag(1, LENGTH_DELIMITED);
      body := body + AppendBytes(pe);
    }
    frame := BuildFrame(Payload(RESPONSE_GET_PROPERTY, msgID, hasID, GET_PROPERTY_FIELD, body));
  }

  /** The answer as the receiver rebuilds it is exactly the projection, its integers
      normalised. `frame` itself can be framed only up to the message size. */
  method HandleGetProperty(msgID: nat, hasID: bool, query: seq<Element>, full: map<Bytes, Node>)
    returns (frame: Bytes, ghost rebuilt: seq<Element>)
    requires msgID < 0x1_0000_0000
    ensures |frame| > 2
    ensures |frame| < U64_LIMIT ==>
              var payload := frame[2..];
              && frame == BuildFrame(payload)
              && (ReadFrame(frame) == Frame(payload, []) <==> |payload| <= 16384)
              && exists body ::
                   && ParseEnvelope(payload)
                      == Message(Envelope(5, if hasID then msgID else 0, hasID, map[103 := body]))
                   && DecodeProperties([], body) == Good(rebuilt)
    ensures forall path, w :: HasFact(rebuilt, path, w) <==>
              exists v :: Selected(Obj(full), query, path, v) && NormalValue(v) == w
    ensures exists props :: rebuilt == NormalList(props) && Answers(props, Obj(full), query)
    ensures query == [] || (exists j :: 0 <= j < |query| &&
                              (query[j].name == [] || query[j].name == [32] || query[j].name == [42])) ==>
              forall path, w :: HasFact(rebuilt, path, w) <==>
                exists v :: Selected(Obj(full), [], path, v) && NormalValue(v) == w
  {
    var props := SelectMembers(Obj(full), query);
    frame := BuildGetPropertyResponse(msgID, hasID, props);
    rebuilt := NormalList(props);
    forall path, w
      ensures HasFact(rebuilt, path, w) <==>
              exists v :: Selected(Obj(full), query, path, v) && NormalValue(v) == w
    {
      NormalFact(props, path, w);
    }
    VarintNotEmpty(RESPONSE_GET_PROPERTY * 8);
    if |frame| < U64_LIMIT {
      ResponseRoundTrip(msgID, hasID, props, frame);
    }
  }

  lemma ResponseRoundTrip(msgID: nat, hasID: bool, props: seq<Element>, frame: Bytes)
    requires msgID < 0x1_0000_0000 && 2 < |frame| < U64_LIMIT
    requires frame == BuildFrame(Payload(RESPONSE_GET_PROPERTY, msgID, hasID, GET_PROPERTY_FIELD, EncodeList(1, props)))
    ensures var payload, body := frame[2..], EncodeList(1, props);
            && frame == BuildFrame(payload)
            && (ReadFrame(frame) == Frame(payload, []) <==> |payload| <= MAX_MESSAGE_SIZE)
            && ParseEnvelope(payload) == Message(Envelope(RESPONSE_GET_PROPERTY,
                 if hasID then msgID else 0, hasID, map[GET_PROPERTY_FIELD := body]))
            && DecodeProperties([], body) == Good(NormalList(props))
  {
    hide EncodeList, AppendTag, AppendVarint, ParseEnvelope, DecodeProperties, ReadFrame;
    var payload, body := frame[2..], EncodeList(1, props);
    assert payload == Payload(RESPONSE_GET_PROPERTY, msgID, hasID, GET_PROPERTY_FIELD, body);
    assert |body| < |payload| + 1 && |payload| > 0 by {
      assert |AppendBytes(body)| >= |body|;
      VarintNotEmpty(RESPONSE_GET_PROPERTY);
    }
    FrameReadsBackIff(payload, []);
    assert BuildFrame(payload) + [] == frame;
    EnvelopeRoundTrip(RESPONSE_GET_PROPERTY, msgID, hasID, GET_PROPERTY_FIELD, body);
    PropertiesRoundTrip([], props);
    assert [] + NormalList(props) == NormalList(props);
  }

  lemma VarintNotEmpty(v: nat)
    ensures |AppendVarint(v)| > 0
  {
  }
}

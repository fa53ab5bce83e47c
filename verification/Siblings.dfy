/** Sibling clustering (web/src/lib/siblings.ts): entries of one physical device are pulled
    together behind the first of them. An item is given by what getId and getKey say of it. */
module Siblings {
  import opened Options
  import opened SeqFacts

  datatype Item = Item(id: string, key: Option<string>)

  datatype SiblingInfo = SiblingInfo(key: string, size: nat, index: nat)

  // ------------------------------------------------------------- siblingKeyOf

  datatype KeyParts = KeyParts(key: string, prefix: string, pluginId: string)

  /** indexOf, with |s| for "not found". */
  function IndexOf(s: string, c: char): (i: nat)
    ensures i <= |s| && c !in s[..i] && (i < |s| ==> s[i] == c)
  {
    if s == [] then 0 else if s[0] == c then 0 else
      assert s[..1 + IndexOf(s[1..], c)] == [s[0]] + s[1..][..IndexOf(s[1..], c)];
      1 + IndexOf(s[1..], c)
  }

  function SiblingKeyOf(pluginId: string, remoteEntityId: string): Option<KeyParts> {
    var colon := IndexOf(remoteEntityId, ':');
    if remoteEntityId == "" || colon == 0 || colon == |remoteEntityId| then None
    else Some(KeyParts(pluginId + "|" + remoteEntityId[..colon], remoteEntityId[..colon], pluginId))
  }

  /** An entry has a key exactly if its id has a colon and something before the first one. */
  lemma HasKeyIff(pluginId: string, remoteEntityId: string)
    ensures SiblingKeyOf(pluginId, remoteEntityId).Some? <==> ':' in remoteEntityId && remoteEntityId[0] != ':'
  {
    var colon := IndexOf(remoteEntityId, ':');
    if colon == |remoteEntityId| { assert remoteEntityId[..colon] == remoteEntityId; }
  }

  /** `q` is `p` followed by a bar and a rest without a colon. */
  predicate Extends(p: string, q: string) {
    |q| > |p| && q[..|p| + 1] == p + "|" && ':' !in q[|p| + 1..]
  }

  lemma SharedKeyExtends(p: string, a: string, q: string, b: string)
    requires p + "|" + a == q + "|" + b && |p| < |q| && ':' !in a
    ensures Extends(p, q)
  {
    var s := p + "|" + a;
    assert s[..|q|] == q;
    assert s[..|p| + 1] == p + "|";
    forall k | |p| + 1 <= k < |q| ensures q[k] != ':' {
      assert s[k] == a[k - |p| - 1];
    }
  }

  /** Two entries share a key exactly when they share plugin and device prefix, unless one
      plugin id extends the other. */
  lemma KeyIsDevice(p: string, r: string, q: string, t: string)
    requires SiblingKeyOf(p, r).Some? && SiblingKeyOf(q, t).Some?
    requires !Extends(p, q) && !Extends(q, p)
    ensures var a, b := SiblingKeyOf(p, r).value, SiblingKeyOf(q, t).value;
            a.key == b.key <==> p == q && a.prefix == b.prefix
  {
    var a, b := SiblingKeyOf(p, r).value, SiblingKeyOf(q, t).value;
    if a.key == b.key {
      if |p| < |q| {
        SharedKeyExtends(p, a.prefix, q, b.prefix);
      } else if |q| < |p| {
        SharedKeyExtends(q, b.prefix, p, a.prefix);
      } else {
        assert a.key[..|p|] == p && a.key[..|q|] == q;
        assert a.key[|p| + 1..] == a.prefix && a.key[|p| + 1..] == b.prefix;
      }
    }
  }

  predicate Clash(p: string, r: string, q: string, t: string) {
    SiblingKeyOf(p, r).Some? && SiblingKeyOf(q, t).Some? && SiblingKeyOf(p, r).value.key == SiblingKeyOf(q, t).value.key
  }

  lemma KeyOf(p: string, prefix: string)
    requires prefix != "" && ':' !in prefix
    ensures SiblingKeyOf(p, prefix + ":") == Some(KeyParts(p + "|" + prefix, prefix, p))
  {
    var r := prefix + ":";
    assert r[..|prefix|] == prefix && r[|prefix|] == ':';
    ColonAfter(prefix);
  }

  lemma {:induction false} ColonAfter(prefix: string)
    requires ':' !in prefix
    ensures IndexOf(prefix + ":", ':') == |prefix|
  {
    if prefix != "" {
      ColonAfter(prefix[1..]);
      assert (prefix + ":")[1..] == prefix[1..] + ":";
    }
  }

  /** Entries of plugins one of whose ids extends the other's: these two clash. */
  lemma ExtensionClashes(p: string, q: string) returns (r: string, t: string)
    requires Extends(p, q)
    ensures Clash(p, r, q, t)
  {
    var rest := q[|p| + 1..];
    r, t := rest + "|x" + ":", "x" + ":";
    KeyOf(p, rest + "|x");
    KeyOf(q, "x");
    assert q == p + "|" + rest;
    assert p + "|" + (rest + "|x") == q + "|" + "x";
  }

  /** Exactly which plugins have entries that are confused with one another's. */
  lemma PluginsClashIff(p: string, q: string)
    requires p != q
    ensures (exists r, t :: Clash(p, r, q, t)) <==> Extends(p, q) || Extends(q, p)
  {
    if r, t :| Clash(p, r, q, t) {
      if !Extends(p, q) && !Extends(q, p) { KeyIsDevice(p, r, q, t); }
    }
    if Extends(p, q) {
      var r, t := ExtensionClashes(p, q);
    } else if Extends(q, p) {
      var t, r := ExtensionClashes(q, p);
      assert Clash(p, r, q, t);
    }
  }

  /** With a '|' in a plugin id two devices can share a key. */
  lemma BarConfusesDevices()
    ensures var a, b := SiblingKeyOf("a|b", "c:x"), SiblingKeyOf("a", "b|c:x");
            a.Some? && b.Some? && a.value.key == b.value.key && a.value.pluginId != b.value.pluginId
  {
    assert "c:x"[0] != ':' && "c:x"[1] == ':';
    var t := "b|c:x";
    assert t[0] != ':' && t[1] != ':' && t[2] != ':' && t[3] == ':';
    assert IndexOf("c:x", ':') == 1;
    assert IndexOf(t, ':') == 3;
    assert "c:x"[..1] == "c" && t[..3] == "b|c";
  }

  // ------------------------------------------------------------- specification

  function Members(items: seq<Item>, k: string): seq<Item> {
    if items == [] then []
    else MembersFirst(items[0], k) + Members(items[1..], k)
  }

  function Without(items: seq<Item>, k: string): (r: seq<Item>)
    ensures |r| <= |items|
  {
    if items == [] then []
    else WithoutFirst(items[0], k) + Without(items[1..], k)
  }

  function MembersFirst(x: Item, k: string): seq<Item> {
    if x.key == Some(k) then [x] else []
  }

  function WithoutFirst(x: Item, k: string): (r: seq<Item>)
    ensures |r| <= 1
  {
    if x.key == Some(k) then [] else [x]
  }

  /** The first item, its siblings behind it, then the rest likewise. */
  function Cluster(items: seq<Item>): seq<Item>
    decreases |items|
  {
    if items == [] then []
    else
      match items[0].key
      case None => [items[0]] + Cluster(items[1..])
      case Some(k) => [items[0]] + Members(items[1..], k) + Cluster(Without(items[1..], k))
  }

  /** Ungrouped items and the first item of each group, in order. */
  function Heads(items: seq<Item>): seq<Item>
    decreases |items|
  {
    if items == [] then []
    else
      match items[0].key
      case None => [items[0]] + Heads(items[1..])
      case Some(k) => [items[0]] + Heads(Without(items[1..], k))
  }

  // ------------------------------------------------------- filters and their laws

  lemma {:induction false} MembersConcat(a: seq<Item>, b: seq<Item>, k: string)
    ensures Members(a + b, k) == Members(a, k) + Members(b, k)
  {
    if a == [] {
      assert a + b == b;
    } else {
      SplitFirst(a, b);
      MembersConcat(a[1..], b, k);
      Associate(MembersFirst(a[0], k), Members(a[1..], k), Members(b, k));
    }
  }

  lemma {:induction false} WithoutConcat(a: seq<Item>, b: seq<Item>, k: string)
    ensures Without(a + b, k) == Without(a, k) + Without(b, k)
  {
    if a == [] {
      assert a + b == b;
    } else {
      SplitFirst(a, b);
      WithoutConcat(a[1..], b, k);
      Associate(WithoutFirst(a[0], k), Without(a[1..], k), Without(b, k));
    }
  }

  lemma {:induction false} MembersOf(items: seq<Item>, k: string)
    ensures forall x :: x in Members(items, k) <==> x in items && x.key == Some(k)
    ensures forall x :: x in Without(items, k) <==> x in items && x.key != Some(k)
  {
    if items != [] {
      MembersOf(items[1..], k);
    }
  }

  ghost predicate Interleaves(a: seq<Item>, b: seq<Item>, items: seq<Item>) {
    multiset(items) == multiset(a) + multiset(b)
  }

  lemma InterleaveFirst(x: Item, tail: seq<Item>, a: seq<Item>, b: seq<Item>, c: seq<Item>, d: seq<Item>)
    requires (a == [x] && c == []) || (a == [] && c == [x])
    requires Interleaves(b, d, tail)
    ensures Interleaves(a + b, c + d, [x] + tail)
  {
    assert multiset(a + b) == multiset(a) + multiset(b);
    assert multiset(c + d) == multiset(c) + multiset(d);
  }

  lemma Unfold(items: seq<Item>, k: string)
    requires items != []
    ensures Members(items, k) == MembersFirst(items[0], k) + Members(items[1..], k)
    ensures Without(items, k) == WithoutFirst(items[0], k) + Without(items[1..], k)
    ensures var a, c := MembersFirst(items[0], k), WithoutFirst(items[0], k);
            (a == [items[0]] && c == []) || (a == [] && c == [items[0]])
  {
  }

  lemma NothingInterleaves(k: string)
    ensures Interleaves(Members([], k), Without([], k), [])
  {
  }

  lemma {:induction false} MembersPartition(items: seq<Item>, k: string)
    ensures Interleaves(Members(items, k), Without(items, k), items)
  {
    hide Interleaves, Members, Without, MembersFirst, WithoutFirst;
    if items == [] {
      NothingInterleaves(k);
    } else {
      var x, tail := items[0], items[1..];
      Unfold(items, k);
      MembersPartition(tail, k);
      InterleaveFirst(x, tail, MembersFirst(x, k), Members(tail, k), WithoutFirst(x, k), Without(tail, k));
      assert items == [x] + tail;
    }
  }

  lemma {:induction false} MembersOfMembers(items: seq<Item>, k: string, l: string)
    ensures Members(Members(items, k), l) == if k == l then Members(items, k) else []
    ensures Members(Without(items, k), l) == if k == l then [] else Members(items, l)
    ensures Without(Members(items, k), k) == []
    ensures Without(Without(items, k), k) == Without(items, k)
  {
    if items != [] {
      var x, tail := items[0], items[1..];
      MembersOfMembers(tail, k, l);
      assert [x][1..] == [];
      MembersConcat(MembersFirst(x, k), Members(tail, k), l);
      MembersConcat(WithoutFirst(x, k), Without(tail, k), l);
      WithoutConcat(MembersFirst(x, k), Members(tail, k), k);
      WithoutConcat(WithoutFirst(x, k), Without(tail, k), k);
    }
  }

  lemma ClusterFirst(x: Item, tail: seq<Item>)
    ensures Cluster([x] + tail) == if x.key == None then [x] + Cluster(tail)
                                   else [x] + Members(tail, x.key.value) + Cluster(Without(tail, x.key.value))
    ensures forall k :: Members([x] + tail, k) == MembersFirst(x, k) + Members(tail, k)
  {
    assert ([x] + tail)[1..] == tail;
  }

  // ------------------------------------------------------------------ theorems

  /** The result is a permutation of the input. */
  lemma {:induction false} ClusterIsPermutation(items: seq<Item>)
    ensures multiset(Cluster(items)) == multiset(items)
    decreases |items|
  {
    if items != [] {
      var tail := items[1..];
      assert items == [items[0]] + tail;
      match items[0].key {
        case None => ClusterIsPermutation(tail);
        case Some(k) =>
          MembersPartition(tail, k);
          ClusterIsPermutation(Without(tail, k));
      }
    }
  }

  /** Within each group the original order is kept. */
  lemma {:induction false} ClusterKeepsGroups(items: seq<Item>, k: string)
    ensures Members(Cluster(items), k) == Members(items, k)
    decreases |items|
  {
    if items != [] {
      var x, tail := items[0], items[1..];
      assert [x][1..] == [];
      match x.key {
        case None =>
          ClusterKeepsGroups(tail, k);
          MembersConcat([x], Cluster(tail), k);
        case Some(l) =>
          var rest := Without(tail, l);
          ClusterKeepsGroups(rest, k);
          MembersOfMembers(tail, l, k);
          MembersConcat([x] + Members(tail, l), Cluster(rest), k);
          MembersConcat([x], Members(tail, l), k);
      }
    }
  }

  /** Every group is one contiguous block. */
  lemma {:induction false} ClusterIsContiguous(items: seq<Item>, k: string)
    returns (before: seq<Item>, after: seq<Item>)
    ensures Cluster(items) == before + Members(items, k) + after
    ensures forall x :: x in before || x in after ==> x.key != Some(k)
    decreases |items|
  {
    if items == [] {
      return [], [];
    }
    var x, tail := items[0], items[1..];
    var b: seq<Item>;
    assert items == [x] + tail;
    ClusterFirst(x, tail);
    hide Members, Cluster, Without;
    match x.key {
      case None =>
        b, after := ClusterIsContiguous(tail, k);
        before := [x] + b;
        NothingFirst(Members(tail, k));
        Regroup([x], b, Members(items, k), after);
      case Some(l) =>
        var rest := Without(tail, l);
        MembersOfMembers(tail, l, k);
        MembersOf(tail, l);
        if l == k {
          before, after := [], Cluster(rest);
          ForeignCluster(rest, k);
          NothingFirst(Members(items, k));
        } else {
          b, after := ClusterIsContiguous(rest, k);
          before := [x] + Members(tail, l) + b;
          NothingFirst(Members(tail, k));
          Regroup([x] + Members(tail, l), b, Members(items, k), after);
        }
    }
  }

  lemma Regroup<T>(a: seq<T>, b: seq<T>, c: seq<T>, d: seq<T>)
    ensures a + (b + c + d) == a + b + c + d
  {
  }

  lemma ForeignCluster(items: seq<Item>, k: string)
    requires Members(items, k) == []
    ensures forall x :: x in Cluster(items) ==> x.key != Some(k)
  {
    ClusterKeepsGroups(items, k);
    MembersOf(Cluster(items), k);
  }

  /** What follows a group head: its members come first, and nothing of the group after them. */
  lemma RestIsForeign(tail: seq<Item>, k: string)
    ensures var rest := Cluster(Without(tail, k));
            Members(Members(tail, k) + rest, k) == Members(tail, k) && Without(Members(tail, k) + rest, k) == rest
  {
    var rest := Cluster(Without(tail, k));
    MembersOfMembers(tail, k, k);
    ClusterKeepsGroups(Without(tail, k), k);
    WithoutNone(rest, k);
    hide Members, Without, Cluster;
    MembersConcat(Members(tail, k), rest, k);
    WithoutConcat(Members(tail, k), rest, k);
    NothingFirst(rest);
  }

  /** Group heads and ungrouped items keep their relative order. */
  lemma {:induction false} ClusterKeepsHeads(items: seq<Item>)
    ensures Heads(Cluster(items)) == Heads(items)
    decreases |items|
  {
    if items != [] {
      var x, tail := items[0], items[1..];
      assert items == [x] + tail;
      ClusterFirst(x, tail);
      HeadsFirst(x, tail);
      hide Members, Cluster, Without, Heads;
      match x.key {
        case None =>
          ClusterKeepsHeads(tail);
          HeadsFirst(x, Cluster(tail));
        case Some(k) =>
          var members, rest := Members(tail, k), Cluster(Without(tail, k));
          ClusterKeepsHeads(Without(tail, k));
          RestIsForeign(tail, k);
          Associate([x], members, rest);
          HeadsFirst(x, members + rest);
      }
    }
  }

  lemma HeadsFirst(x: Item, tail: seq<Item>)
    ensures Heads([x] + tail) == [x] + Heads(if x.key == None then tail else Without(tail, x.key.value))
  {
    assert ([x] + tail)[1..] == tail;
  }

  lemma {:induction false} WithoutNone(items: seq<Item>, k: string)
    requires Members(items, k) == []
    ensures Without(items, k) == items
  {
    if items != [] {
      var x, rest := items[0], items[1..];
      assert |Members(items, k)| == |MembersFirst(x, k)| + |Members(rest, k)|;
      WithoutNone(rest, k);
      assert items == [x] + rest;
    }
  }

  /** Clustering again changes nothing. */
  lemma {:induction false} ClusterIsIdempotent(items: seq<Item>)
    ensures Cluster(Cluster(items)) == Cluster(items)
    decreases |items|
  {
    if items != [] {
      var x, tail := items[0], items[1..];
      assert items == [x] + tail;
      ClusterFirst(x, tail);
      hide Members, Cluster, Without;
      match x.key {
        case None =>
          ClusterIsIdempotent(tail);
          ClusterFirst(x, Cluster(tail));
        case Some(k) =>
          var members, rest := Members(tail, k), Cluster(Without(tail, k));
          ClusterIsIdempotent(Without(tail, k));
          RestIsForeign(tail, k);
          Associate([x], members, rest);
          ClusterFirst(x, members + rest);
      }
    }
  }

  // --------------------------------------------------------------- the source

  predicate UniqueIds(items: seq<Item>) {
    forall i, j :: 0 <= i < j < |items| ==> items[i].id != items[j].id
  }

  lemma UniqueTail(items: seq<Item>)
    requires items != [] && UniqueIds(items)
    ensures UniqueIds(items[1..]) && forall x :: x in items[1..] ==> x.id != items[0].id
  {
    forall i, j | 0 <= i < j < |items[1..]| ensures items[1..][i].id != items[1..][j].id {
      assert items[i + 1].id != items[j + 1].id;
    }
  }

  lemma {:induction false} MembersUnique(items: seq<Item>, k: string)
    requires UniqueIds(items)
    ensures UniqueIds(Members(items, k))
  {
    if items != [] {
      UniqueTail(items);
      MembersUnique(items[1..], k);
      MembersOf(items[1..], k);
    }
  }

  lemma SameIdSameItem(items: seq<Item>, x: Item, y: Item)
    requires UniqueIds(items) && x in items && y in items && x.id == y.id
    ensures x == y
  {
    var i :| 0 <= i < |items| && items[i] == x;
    var j :| 0 <= j < |items| && items[j] == y;
  }

  /** The items not pushed yet. */
  function Unseen(items: seq<Item>, seen: set<string>): seq<Item> {
    if items == [] then []
    else (if items[0].id in seen then [] else [items[0]]) + Unseen(items[1..], seen)
  }

  lemma {:induction false} UnseenChange(items: seq<Item>, seen: set<string>, seen': set<string>, k: Option<string>)
    requires forall x :: x in items ==> (x.id in seen' <==> x.id in seen || (k.Some? && x.key == k))
    ensures Unseen(items, seen') == if k.Some? then Without(Unseen(items, seen), k.value) else Unseen(items, seen)
  {
    if items != [] {
      UnseenChange(items[1..], seen, seen', k);
      assert items[0] in items;
      if items[0].id !in seen {
        assert ([items[0]] + Unseen(items[1..], seen))[1..] == Unseen(items[1..], seen);
      } else {
        assert items[0].id in seen';
        NothingFirst(Unseen(items[1..], seen));
      }
    }
  }

  lemma {:induction false} UnseenMembers(items: seq<Item>, seen: set<string>, k: string)
    requires forall x :: x in items && x.key == Some(k) ==> x.id !in seen
    ensures Members(Unseen(items, seen), k) == Members(items, k)
  {
    if items != [] {
      UnseenMembers(items[1..], seen, k);
      if items[0].id !in seen {
        assert ([items[0]] + Unseen(items[1..], seen))[1..] == Unseen(items[1..], seen);
      } else {
        assert items[0] in items;
        NothingFirst(Unseen(items[1..], seen));
      }
    }
  }

  lemma NoMembers(items: seq<Item>, k: string)
    requires forall x :: x in items ==> x.key != Some(k)
    ensures Members(items, k) == []
  {
    MembersOf(items, k);
    var m := Members(items, k);
    assert forall j :: 0 <= j < |m| ==> m[j] in m;
  }

  predicate Whole(items: seq<Item>, seen: set<string>) {
    forall x, y :: x in items && y in items && x.key.Some? && x.key == y.key ==> (x.id in seen <==> y.id in seen)
  }

  /** What one turn of the ordering loop pushes: the item's whole group, or the item. */
  function Block(items: seq<Item>, it: Item): seq<Item> {
    if it.key.Some? then Members(items, it.key.value) else [it]
  }

  function Ids(block: seq<Item>): set<string> {
    set x | x in block :: x.id
  }

  lemma SeenAfterBlock(items: seq<Item>, it: Item, x: Item)
    requires UniqueIds(items) && it in items && x in items
    ensures x.id in Ids(Block(items, it)) <==> x == it || (it.key.Some? && x.key == it.key)
  {
    var block := Block(items, it);
    if it.key.Some? { MembersOf(items, it.key.value); }
    if x.id in Ids(block) {
      var y :| y in block && y.id == x.id;
      SameIdSameItem(items, x, y);
    }
    assert x in block ==> x.id in Ids(block);
  }

  lemma NotInTail(items: seq<Item>, i: nat)
    requires UniqueIds(items) && i < |items|
    ensures items[i] !in items[i + 1..] && items == items[..i] + [items[i]] + items[i + 1..]
  {
    var tail := items[i + 1..];
    forall j | 0 <= j < |tail| ensures tail[j] != items[i] {
      assert tail[j] == items[i + 1 + j] && items[i].id != items[i + 1 + j].id;
    }
  }

  lemma MembersFrom(items: seq<Item>, i: nat, k: string)
    requires i < |items| && items[i].key == Some(k)
    requires forall x :: x in items[..i] ==> x.key != Some(k)
    ensures Members(items, k) == [items[i]] + Members(items[i + 1..], k)
  {
    var it, tail := items[i], items[i + 1..];
    assert items == items[..i] + [it] + tail;
    NoMembers(items[..i], k);
    assert Members([it], k) == [it] by { assert [it][1..] == []; }
    hide Members;
    MembersConcat(items[..i] + [it], tail, k);
    MembersConcat(items[..i], [it], k);
    NothingFirst([it]);
  }

  /** One turn of the ordering loop at an item not seen yet. */
  lemma OrderStep(items: seq<Item>, i: nat, seen: set<string>, seen': set<string>)
    requires UniqueIds(items) && i < |items| && items[i].id !in seen && Whole(items, seen)
    requires forall x :: x in items[..i] ==> x.id in seen
    requires seen' == seen + Ids(Block(items, items[i]))
    ensures Cluster(Unseen(items[i..], seen)) == Block(items, items[i]) + Cluster(Unseen(items[i + 1..], seen'))
    ensures Whole(items, seen') && forall x :: x in items[..i + 1] ==> x.id in seen'
  {
    var it, tail := items[i], items[i + 1..];
    var u := Unseen(tail, seen);
    assert Unseen(items[i..], seen) == [it] + u by { assert items[i..][0] == it && items[i..][1..] == tail; }
    ClusterFirst(it, u);
    hide Cluster, Members, Unseen;
    NotInTail(items, i);
    forall x | x in items ensures x.id in seen' <==> x.id in seen || x == it || (it.key.Some? && x.key == it.key) {
      SeenAfterBlock(items, it, x);
    }
    hide Block, Ids;
    UnseenTail(items, i, seen, seen');
  }

  lemma UnseenTail(items: seq<Item>, i: nat, seen: set<string>, seen': set<string>)
    requires i < |items| && items[i].id !in seen && Whole(items, seen)
    requires items[i] !in items[i + 1..]
    requires forall x :: x in items[..i] ==> x.id in seen
    requires forall x :: x in items ==>
               (x.id in seen' <==> x.id in seen || x == items[i] || (items[i].key.Some? && x.key == items[i].key))
    ensures var it, tail := items[i], items[i + 1..];
            && (it.key == None ==> Unseen(tail, seen') == Unseen(tail, seen))
            && (it.key.Some? ==> Unseen(tail, seen') == Without(Unseen(tail, seen), it.key.value))
            && (it.key.Some? ==> Block(items, it) == [it] + Members(Unseen(tail, seen), it.key.value))
  {
    var it, tail := items[i], items[i + 1..];
    assert forall x :: x in tail || x in items[..i] ==> x in items;
    UnseenChange(tail, seen, seen', it.key);
    if it.key.Some? {
      var k := it.key.value;
      forall x | x in items && x.key == Some(k) ensures x.id !in seen && x !in items[..i] {
        assert x.id in seen <==> it.id in seen;
      }
      UnseenMembers(tail, seen, k);
      MembersFrom(items, i, k);
    }
  }

  /** The index of an item within its group is recorded, for groups of two and more only. */
  ghost predicate InfoExact(items: seq<Item>, info: map<string, SiblingInfo>, todo: set<string>) {
    && (forall k, j :: k !in todo && 0 <= j < |Members(items, k)| && |Members(items, k)| >= 2 ==>
          var id := Members(items, k)[j].id;
          id in info && info[id] == SiblingInfo(k, |Members(items, k)|, j))
    && (forall x :: x in items && x.id in info ==>
          x.key.Some? && x.key.value !in todo && |Members(items, x.key.value)| >= 2)
  }

  method BuildGroups(items: seq<Item>) returns (groups: map<string, seq<Item>>)
    ensures forall k :: (k in groups <==> Members(items, k) != []) && (k in groups ==> groups[k] == Members(items, k))
  {
    groups := map[];
    for i := 0 to |items|
      invariant forall k :: (k in groups <==> Members(items[..i], k) != []) &&
                            (k in groups ==> groups[k] == Members(items[..i], k))
    {
      var it := items[i];
      assert items[..i + 1] == items[..i] + [it] && [it][1..] == [];
      forall k ensures Members(items[..i + 1], k) == Members(items[..i], k) + MembersFirst(it, k) {
        MembersConcat(items[..i], [it], k);
      }
      if it.key == None { continue; }
      var arr := if it.key.value in groups then groups[it.key.value] else [];
      groups := groups[it.key.value := arr + [it]];
    }
    assert items[..|items|] == items;
  }

  method BuildInfo(items: seq<Item>, groups: map<string, seq<Item>>) returns (info: map<string, SiblingInfo>)
    requires UniqueIds(items)
    requires forall k :: (k in groups <==> Members(items, k) != []) && (k in groups ==> groups[k] == Members(items, k))
    ensures InfoExact(items, info, {})
  {
    info := map[];
    var todo := groups.Keys;
    NoInfo(items, todo);
    hide InfoExact, Members;
    while todo != {}
      invariant todo <= groups.Keys && InfoExact(items, info, todo)
    {
      var k :| k in todo;
      var arr := groups[k];
      MembersUnique(items, k);
      if |arr| >= 2 {
        ghost var before := info;
        info := RecordGroup(arr, k, info);
        InfoGroup(items, before, info, arr, k, todo);
      } else {
        SmallGroup(items, info, k, todo);
      }
      todo := todo - {k};
    }
  }

  method RecordGroup(arr: seq<Item>, k: string, before: map<string, SiblingInfo>)
    returns (info: map<string, SiblingInfo>)
    requires UniqueIds(arr)
    ensures forall j :: 0 <= j < |arr| ==> arr[j].id in info && info[arr[j].id] == SiblingInfo(k, |arr|, j)
    ensures forall id :: id in info <==> id in before || exists j :: 0 <= j < |arr| && arr[j].id == id
    ensures forall id :: id in before && (forall j :: 0 <= j < |arr| ==> arr[j].id != id) ==> info[id] == before[id]
  {
    info := before;
    for i := 0 to |arr|
      invariant forall j :: 0 <= j < i ==> arr[j].id in info && info[arr[j].id] == SiblingInfo(k, |arr|, j)
      invariant forall id :: id in info <==> id in before || exists j :: 0 <= j < i && arr[j].id == id
      invariant forall id :: id in before && (forall j :: 0 <= j < i ==> arr[j].id != id) ==> info[id] == before[id]
    {
      info := info[arr[i].id := SiblingInfo(k, |arr|, i)];
    }
  }

  lemma NoInfo(items: seq<Item>, todo: set<string>)
    requires forall k :: k in todo <==> Members(items, k) != []
    ensures InfoExact(items, map[], todo)
  {
  }

  lemma SmallGroup(items: seq<Item>, info: map<string, SiblingInfo>, k: string, todo: set<string>)
    requires InfoExact(items, info, todo) && |Members(items, k)| < 2
    ensures InfoExact(items, info, todo - {k})
  {
  }

  lemma InfoGroup(items: seq<Item>, before: map<string, SiblingInfo>, info: map<string, SiblingInfo>, m: seq<Item>,
                  k: string, todo: set<string>)
    requires UniqueIds(items) && InfoExact(items, before, todo) && k in todo
    requires m == Members(items, k) && |m| >= 2
    requires forall j :: 0 <= j < |m| ==> m[j].id in info && info[m[j].id] == SiblingInfo(k, |m|, j)
    requires forall id :: id in info <==> id in before || exists j :: 0 <= j < |m| && m[j].id == id
    requires forall id :: id in before && (forall j :: 0 <= j < |m| ==> m[j].id != id) ==> info[id] == before[id]
    ensures InfoExact(items, info, todo - {k})
  {
    MembersOf(items, k);
    forall l, j | l !in todo - {k} && 0 <= j < |Members(items, l)| && |Members(items, l)| >= 2
      ensures var id := Members(items, l)[j].id;
              id in info && info[id] == SiblingInfo(l, |Members(items, l)|, j)
    {
      if l != k {
        MembersOf(items, l);
        var x := Members(items, l)[j];
        forall i | 0 <= i < |Members(items, k)| ensures Members(items, k)[i].id != x.id {
          var y := Members(items, k)[i];
          assert y in Members(items, k) && x in Members(items, l);
          if y.id == x.id { SameIdSameItem(items, x, y); }
        }
      }
    }
    forall x | x in items && x.id in info
      ensures x.key.Some? && x.key.value !in todo - {k} && |Members(items, x.key.value)| >= 2
    {
      if x.id !in before {
        var j :| 0 <= j < |Members(items, k)| && Members(items, k)[j].id == x.id;
        assert Members(items, k)[j] in Members(items, k);
        SameIdSameItem(items, x, Members(items, k)[j]);
      }
    }
  }

  /** clusterSiblings, with its Maps. */
  method ClusterSiblings(items: seq<Item>) returns (ordered: seq<Item>, info: map<string, SiblingInfo>)
    requires UniqueIds(items)
    ensures ordered == Cluster(items)
    ensures InfoExact(items, info, {})
  {
    var groups := BuildGroups(items);
    info := BuildInfo(items, groups);
    ordered := [];
    var seen: set<string> := {};
    assert Unseen(items[0..], seen) == items by { NothingSeen(items); }
    for i := 0 to |items|
      invariant ordered + Cluster(Unseen(items[i..], seen)) == Cluster(items)
      invariant Whole(items, seen) && forall x :: x in items[..i] ==> x.id in seen
    {
      var it := items[i];
      if it.id in seen {
        SkipSeen(items, i, seen);
        continue;
      }
      ghost var before, seenBefore := ordered, seen;
      if it.id in info {
        InfoNamesGroup(items, info, it);
        var group := groups[info[it.id].key];
        MembersUnique(items, it.key.value);
        MembersOf(items, it.key.value);
        assert forall s: Item :: s in group ==> (s.id in seen <==> it.id in seen);
        ordered, seen := PushGroup(group, ordered, seen);
      } else {
        SingleGroup(items, info, it);
        ordered, seen := ordered + [it], seen + {it.id};
      }
      hide Cluster, Unseen, Whole, Members, InfoExact, Ids, Block;
      OrderStep(items, i, seenBefore, seen);
      Associate(before, Block(items, it), Cluster(Unseen(items[i + 1..], seen)));
    }
    assert items[|items|..] == [];
  }

  lemma SkipSeen(items: seq<Item>, i: nat, seen: set<string>)
    requires i < |items| && items[i].id in seen
    ensures Unseen(items[i..], seen) == Unseen(items[i + 1..], seen)
    ensures items[..i + 1] == items[..i] + [items[i]]
  {
    assert items[i..][0] == items[i] && items[i..][1..] == items[i + 1..];
    NothingFirst(Unseen(items[i + 1..], seen));
  }

  method PushGroup(group: seq<Item>, before: seq<Item>, seenBefore: set<string>)
    returns (ordered: seq<Item>, seen: set<string>)
    requires UniqueIds(group) && forall x :: x in group ==> x.id !in seenBefore
    ensures ordered == before + group && seen == seenBefore + Ids(group)
  {
    ordered, seen := before, seenBefore;
    for j := 0 to |group|
      invariant ordered == before + group[..j]
      invariant seen == seenBefore + Ids(group[..j])
    {
      var s := group[j];
      assert s in group && group[..j + 1] == group[..j] + [s];
      assert forall x :: x in group[..j] ==> x.id != s.id;
      if s.id !in seen {
        ordered := ordered + [s];
        seen := seen + {s.id};
      }
    }
    assert group[..|group|] == group;
  }

  lemma {:induction false} NothingSeen(items: seq<Item>)
    ensures Unseen(items, {}) == items
  {
    if items != [] { NothingSeen(items[1..]); }
  }

  lemma InfoNamesGroup(items: seq<Item>, info: map<string, SiblingInfo>, it: Item)
    requires UniqueIds(items) && InfoExact(items, info, {}) && it in items && it.id in info
    ensures it.key == Some(info[it.id].key) && Members(items, info[it.id].key) != []
    ensures Block(items, it) == Members(items, info[it.id].key)
  {
    var k := it.key.value;
    MembersOf(items, k);
    var j :| 0 <= j < |Members(items, k)| && Members(items, k)[j] == it;
  }

  lemma SingleGroup(items: seq<Item>, info: map<string, SiblingInfo>, it: Item)
    requires InfoExact(items, info, {}) && it in items && it.id !in info
    ensures Block(items, it) == [it] && Ids([it]) == {it.id}
  {
    if it.key.Some? {
      var k := it.key.value;
      MembersOf(items, k);
      var j :| 0 <= j < |Members(items, k)| && Members(items, k)[j] == it;
    }
  }

  /** The recorded index and size place an item in the result: in the block of its group, at
      that offset, the block having that length. */
  lemma RecordedIndexIsOffset(items: seq<Item>, info: map<string, SiblingInfo>, it: Item) returns (start: nat)
    requires UniqueIds(items) && InfoExact(items, info, {}) && it in items && it.id in info
    ensures var inf := info[it.id];
            && it.key == Some(inf.key) && inf.index < inf.size && start + inf.size <= |Cluster(items)|
            && Cluster(items)[start..start + inf.size] == Members(items, inf.key)
            && Cluster(items)[start + inf.index] == it
  {
    var j := RecordedPlace(items, info, it);
    hide Cluster, Members, InfoExact;
    var m := Members(items, it.key.value);
    var before, after := ClusterIsContiguous(items, it.key.value);
    start := |before|;
    MiddleSlice(before, m, after);
  }

  lemma RecordedPlace(items: seq<Item>, info: map<string, SiblingInfo>, it: Item) returns (j: nat)
    requires InfoExact(items, info, {}) && it in items && it.id in info
    ensures it.key.Some? && j < |Members(items, it.key.value)| && Members(items, it.key.value)[j] == it
    ensures info[it.id] == SiblingInfo(it.key.value, |Members(items, it.key.value)|, j)
  {
    var k := it.key.value;
    MembersOf(items, k);
    j :| 0 <= j < |Members(items, k)| && Members(items, k)[j] == it;
  }

  lemma MiddleSlice<T>(a: seq<T>, b: seq<T>, c: seq<T>)
    ensures (a + b + c)[|a|..|a| + |b|] == b && forall j :: 0 <= j < |b| ==> (a + b + c)[|a| + j] == b[j]
  {
  }
}

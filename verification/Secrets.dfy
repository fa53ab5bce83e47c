/** Keeping plugin secrets out of the HTTP API (pkg/httpapi/plugins.go): a config is scrubbed
    by its schema before it is shown, and a submitted config gets its missing secrets back
    from the stored one. Config trees are values here. */
module Secrets {
  import opened SeqFacts

  datatype Json =
    | Obj(members: map<string, Json>)
    | Arr(items: seq<Json>)
    | Str(s: string)
    | Other(text: string)   // numbers, booleans, null

  type Config = map<string, Json>

  datatype FieldType = Password | Object | Plain

  datatype Field = Field(key: string, fieldType: FieldType, children: seq<Field>)

  predicate IsSecretField(f: Field) {
    f.fieldType == Password
  }

  predicate Nests(f: Field) {
    f.fieldType == Object && f.children != []
  }

  // --------------------------------------------------------------- scrubbing

  datatype Scrubbed = Scrubbed(config: Config, reported: seq<seq<string>>)

  function Prefixed(prefix: seq<string>, paths: seq<seq<string>>): seq<seq<string>> {
    seq(|paths|, i requires 0 <= i < |paths| => prefix + paths[i])
  }

  lemma PrefixedConcat(prefix: seq<string>, a: seq<seq<string>>, b: seq<seq<string>>)
    ensures Prefixed(prefix, a + b) == Prefixed(prefix, a) + Prefixed(prefix, b)
  {
  }

  lemma PrefixedTwice(a: seq<string>, b: seq<string>, paths: seq<seq<string>>)
    ensures Prefixed(a, Prefixed(b, paths)) == Prefixed(a + b, paths)
  {
    forall i | 0 <= i < |paths| ensures a + (b + paths[i]) == a + b + paths[i] {
    }
  }

  lemma PrefixedByNothing(paths: seq<seq<string>>)
    ensures Prefixed([], paths) == paths
  {
    forall i | 0 <= i < |paths| ensures [] + paths[i] == paths[i] {
    }
  }

  /** One schema field: a secret is deleted, and reported when it was a non-empty string; an
      object field is scrubbed inside. Reported paths are lists of keys, joined by dots for
      the client. */
  function StripField(target: Config, f: Field): Scrubbed
    decreases f, 0
  {
    if IsSecretField(f) then
      if f.key !in target then Scrubbed(target, [])
      else
        var v := target[f.key];
        Scrubbed(target - {f.key}, if v.Str? && v.s != "" then [[f.key]] else [])
    else if Nests(f) && f.key in target && target[f.key].Obj? then
      var inner := Strip(target[f.key].members, f.children);
      Scrubbed(target[f.key := Obj(inner.config)], Prefixed([f.key], inner.reported))
    else Scrubbed(target, [])
  }

  function Strip(target: Config, fields: seq<Field>): Scrubbed
    decreases fields, 1
  {
    if fields == [] then Scrubbed(target, [])
    else
      var first := StripField(target, fields[0]);
      var rest := Strip(first.config, fields[1..]);
      Scrubbed(rest.config, first.reported + rest.reported)
  }

  /** deepCopy: maps, and maps directly inside arrays, are copied. */
  method DeepCopy(input: Config) returns (out: Config)
    ensures out == input
    decreases Obj(input)
  {
    out := map[];
    var todo := input.Keys;
    while todo != {}
      invariant todo <= input.Keys && out.Keys == input.Keys - todo
      invariant forall k :: k in out ==> out[k] == input[k]
    {
      var k :| k in todo;
      todo := todo - {k};
      match input[k] {
        case Obj(m) =>
          var copy := DeepCopy(m);
          out := out[k := Obj(copy)];
        case Arr(items) =>
          var cp := [];
          for i := 0 to |items|
            invariant cp == items[..i]
          {
            if items[i].Obj? {
              var copy := DeepCopy(items[i].members);
              cp := cp + [Obj(copy)];
            } else {
              cp := cp + [items[i]];
            }
          }
          out := out[k := Arr(cp)];
        case _ =>
          out := out[k := input[k]];
      }
    }
  }

  method StripSecrets(config: Config, fields: seq<Field>, prefix: seq<string>, found: seq<seq<string>>)
    returns (target: Config, secrets: seq<seq<string>>)
    ensures target == Strip(config, fields).config
    ensures secrets == found + Prefixed(prefix, Strip(config, fields).reported)
    decreases fields
  {
    target, secrets := config, found;
    for i := 0 to |fields|
      invariant Strip(config, fields).config == Strip(target, fields[i..]).config
      invariant found + Prefixed(prefix, Strip(config, fields).reported)
                == secrets + Prefixed(prefix, Strip(target, fields[i..]).reported)
    {
      var f := fields[i];
      ghost var before, soFar := target, secrets;
      StripNext(target, fields, i, prefix, secrets);
      if IsSecretField(f) {
        if f.key in target {
          if target[f.key].Str? && target[f.key].s != "" {
            secrets := secrets + [prefix + [f.key]];
          }
          target := target - {f.key};
        }
      }
      if f.fieldType == Object && |f.children| > 0 {
        if f.key in target && target[f.key].Obj? {
          var child;
          child, secrets := StripSecrets(target[f.key].members, f.children, prefix + [f.key], secrets);
          PrefixedTwice(prefix, [f.key], Strip(target[f.key].members, f.children).reported);
          target := target[f.key := Obj(child)];
        }
      }
      ghost var one := StripField(before, f);
      assert target == one.config && secrets == soFar + Prefixed(prefix, one.reported);
    }
  }

  lemma StripNext(target: Config, fields: seq<Field>, i: nat, prefix: seq<string>, found: seq<seq<string>>)
    requires i < |fields|
    ensures var one := StripField(target, fields[i]);
            && Strip(target, fields[i..]).config == Strip(one.config, fields[i + 1..]).config
            && found + Prefixed(prefix, Strip(target, fields[i..]).reported)
            == found + Prefixed(prefix, one.reported) + Prefixed(prefix, Strip(one.config, fields[i + 1..]).reported)
  {
    var one := StripField(target, fields[i]);
    assert fields[i..][0] == fields[i] && fields[i..][1..] == fields[i + 1..];
    PrefixedConcat(prefix, one.reported, Strip(one.config, fields[i + 1..]).reported);
  }

  method ScrubSecrets(config: Config, schema: seq<Field>) returns (cleaned: Config, secrets: seq<seq<string>>)
    ensures Scrubbed(cleaned, secrets) == Strip(config, schema)
  {
    cleaned := DeepCopy(config);
    cleaned, secrets := StripSecrets(cleaned, schema, [], []);
    PrefixedByNothing(Strip(config, schema).reported);
  }

  // ----------------------------------------------------------------- merging

  function MergeField(target: Config, existing: Config, f: Field): Config
    decreases f, 0
  {
    if IsSecretField(f) then
      if f.key !in target && f.key in existing then target[f.key := existing[f.key]] else target
    else if Nests(f) && f.key in target && f.key in existing && target[f.key].Obj? && existing[f.key].Obj? then
      target[f.key := Obj(Merge(target[f.key].members, existing[f.key].members, f.children))]
    else target
  }

  function Merge(target: Config, existing: Config, fields: seq<Field>): Config
    decreases fields, 1
  {
    if fields == [] then target else Merge(MergeField(target, existing, fields[0]), existing, fields[1..])
  }

  method MergeSecretsRec(incoming: Config, existing: Config, fields: seq<Field>) returns (target: Config)
    ensures target == Merge(incoming, existing, fields)
    decreases fields
  {
    target := incoming;
    for i := 0 to |fields|
      invariant Merge(incoming, existing, fields) == Merge(target, existing, fields[i..])
    {
      var f := fields[i];
      assert fields[i..][0] == f && fields[i..][1..] == fields[i + 1..];
      if IsSecretField(f) {
        if f.key !in target {
          if f.key in existing { target := target[f.key := existing[f.key]]; }
        }
      }
      if f.fieldType == Object && |f.children| > 0 {
        if f.key in target && f.key in existing && target[f.key].Obj? && existing[f.key].Obj? {
          var child := MergeSecretsRec(target[f.key].members, existing[f.key].members, f.children);
          target := target[f.key := Obj(child)];
        }
      }
    }
  }

  method MergeSecrets(incoming: Config, existing: Config, schema: seq<Field>) returns (out: Config)
    ensures out == Merge(incoming, existing, schema)
  {
    out := DeepCopy(incoming);
    out := MergeSecretsRec(out, existing, schema);
  }

  // ----------------------------------------------------- scrub, then merge back

  /** The children of all object fields of one key, in order: what scrubbing and merging do
      inside a member of that key. */
  function ChildrenOf(fields: seq<Field>, key: string): seq<Field> {
    if fields == [] then []
    else (if Nests(fields[0]) && fields[0].key == key then fields[0].children else []) + ChildrenOf(fields[1..], key)
  }

  lemma {:induction false} ChildrenOfConcat(a: seq<Field>, b: seq<Field>, key: string)
    ensures ChildrenOf(a + b, key) == ChildrenOf(a, key) + ChildrenOf(b, key)
  {
    if a == [] {
      assert a + b == b;
    } else {
      ChildrenOfConcat(a[1..], b, key);
      assert (a + b)[1..] == a[1..] + b;
    }
  }

  predicate SecretKey(fields: seq<Field>, key: string) {
    exists i :: 0 <= i < |fields| && IsSecretField(fields[i]) && fields[i].key == key
  }

  /** `t` is `e` with nothing changed but deletions the schema allows. */
  ghost predicate Reduced(fields: seq<Field>, t: Config, e: Config)
    decreases Obj(e), 0
  {
    && t.Keys <= e.Keys
    && (forall k :: k in e && k !in t ==> SecretKey(fields, k))
    && (forall k :: k in t ==> ReducedValue(ChildrenOf(fields, k), t[k], e[k]))
  }

  ghost predicate ReducedValue(fields: seq<Field>, t: Json, e: Json)
    decreases e, 1
  {
    t == e || (t.Obj? && e.Obj? && Reduced(fields, t.members, e.members))
  }

  lemma SecretKeyConcat(a: seq<Field>, b: seq<Field>, key: string)
    ensures SecretKey(a + b, key) <==> SecretKey(a, key) || SecretKey(b, key)
  {
    if SecretKey(a, key) {
      var i :| 0 <= i < |a| && IsSecretField(a[i]) && a[i].key == key;
      assert (a + b)[i] == a[i];
    }
    if SecretKey(b, key) {
      var i :| 0 <= i < |b| && IsSecretField(b[i]) && b[i].key == key;
      assert (a + b)[|a| + i] == b[i];
    }
  }

  lemma ChildrenOfFirst(f: Field, rest: seq<Field>, key: string)
    ensures ChildrenOf([f] + rest, key) == (if Nests(f) && f.key == key then f.children else []) + ChildrenOf(rest, key)
    ensures SecretKey([f] + rest, key) <==> (IsSecretField(f) && f.key == key) || SecretKey(rest, key)
  {
    assert ([f] + rest)[1..] == rest;
    SecretKeyConcat([f], rest, key);
    assert SecretKey([f], key) <==> IsSecretField(f) && f.key == key by { assert [f][0] == f; }
  }

  /** Merging by one field undoes what that field can have deleted; `rest` is what the later
      fields of the schema can have deleted besides. */
  lemma {:induction false} MergeFieldRestores(t: Config, e: Config, f: Field, rest: seq<Field>)
    requires Reduced([f] + rest, t, e)
    ensures Reduced(rest, MergeField(t, e, f), e)
    decreases f, 0
  {
    var m := MergeField(t, e, f);
    forall k
      ensures ChildrenOf([f] + rest, k) == (if Nests(f) && f.key == k then f.children else []) + ChildrenOf(rest, k)
      ensures SecretKey([f] + rest, k) <==> (IsSecretField(f) && f.key == k) || SecretKey(rest, k)
    {
      ChildrenOfFirst(f, rest, k);
    }
    forall k | k in m ensures ReducedValue(ChildrenOf(rest, k), m[k], e[k]) {
      if k in t {
        assert ReducedValue(ChildrenOf([f] + rest, k), t[k], e[k]);
        if Nests(f) && f.key == k && t[k].Obj? && e[k].Obj? {
          if t[k] == e[k] {
            EqualIsReduced(f.children + ChildrenOf(rest, k), e[k].members);
          }
          MergeRestores(t[k].members, e[k].members, f.children, ChildrenOf(rest, k));
        } else {
          assert ChildrenOf([f] + rest, k) == ChildrenOf(rest, k) || t[k] == e[k];
        }
      }
    }
  }

  lemma EqualIsReduced(fields: seq<Field>, e: Config)
    ensures Reduced(fields, e, e)
  {
  }

  lemma {:induction false} MergeRestores(t: Config, e: Config, fields: seq<Field>, rest: seq<Field>)
    requires Reduced(fields + rest, t, e)
    ensures Reduced(rest, Merge(t, e, fields), e)
    decreases fields, 1
  {
    if fields == [] {
      assert fields + rest == rest;
    } else {
      assert fields + rest == [fields[0]] + (fields[1..] + rest);
      MergeFieldRestores(t, e, fields[0], fields[1..] + rest);
      MergeRestores(MergeField(t, e, fields[0]), e, fields[1..], rest);
    }
  }

  lemma {:induction false} ReducedByNothing(t: Json, e: Json)
    requires ReducedValue([], t, e)
    ensures t == e
    decreases e
  {
    if t.Obj? && e.Obj? && Reduced([], t.members, e.members) {
      forall k | k in t.members ensures t.members[k] == e.members[k] {
        ReducedByNothing(t.members[k], e.members[k]);
      }
      assert t.members == e.members;
    }
  }

  /** Scrubbing by one field deletes only what the schema so far plus that field allows. */
  lemma {:induction false} StripFieldReduces(done: seq<Field>, t: Config, e: Config, f: Field)
    requires Reduced(done, t, e)
    ensures Reduced(done + [f], StripField(t, f).config, e)
    decreases f, 0
  {
    var s := StripField(t, f).config;
    assert [f] + [] == [f];
    forall k
      ensures ChildrenOf(done + [f], k) == ChildrenOf(done, k) + (if Nests(f) && f.key == k then f.children else [])
      ensures SecretKey(done + [f], k) <==> SecretKey(done, k) || (IsSecretField(f) && f.key == k)
    {
      ChildrenOfConcat(done, [f], k);
      ChildrenOfFirst(f, [], k);
      SecretKeyConcat(done, [f], k);
    }
    forall k | k in s ensures ReducedValue(ChildrenOf(done + [f], k), s[k], e[k]) {
      assert ReducedValue(ChildrenOf(done, k), t[k], e[k]);
      if Nests(f) && f.key == k && t[k].Obj? {
        if t[k] == e[k] { EqualIsReduced(ChildrenOf(done, k), e[k].members); }
        StripReduces(ChildrenOf(done, k), t[k].members, e[k].members, f.children);
      } else {
        assert s[k] == t[k];
        assert ChildrenOf(done + [f], k) == ChildrenOf(done, k) || t[k] == e[k];
      }
    }
  }

  lemma {:induction false} StripReduces(done: seq<Field>, t: Config, e: Config, fields: seq<Field>)
    requires Reduced(done, t, e)
    ensures Reduced(done + fields, Strip(t, fields).config, e)
    decreases fields, 1
  {
    if fields == [] {
      assert done + fields == done;
    } else {
      StripFieldReduces(done, t, e, fields[0]);
      StripReduces(done + [fields[0]], StripField(t, fields[0]).config, e, fields[1..]);
      assert done + fields == done + [fields[0]] + fields[1..];
    }
  }

  /** For every schema, duplicate and clashing keys included, and every config: merging the
      scrubbed config with the original gives the original back. */
  lemma MergeUndoesScrub(config: Config, schema: seq<Field>)
    ensures Merge(Strip(config, schema).config, config, schema) == config
  {
    var scrubbed := Strip(config, schema).config;
    EqualIsReduced([], config);
    StripReduces([], config, config, schema);
    assert [] + schema == schema && schema + [] == schema;
    MergeRestores(scrubbed, config, schema, []);
    ReducedByNothing(Obj(Merge(scrubbed, config, schema)), Obj(config));
  }

  // ---------------------------------------------------------- nothing overridden

  /** `m` keeps everything of `t`: keys, leaves, and recursively what is inside objects. */
  ghost predicate Keeps(t: Config, m: Config)
    decreases Obj(t), 0
  {
    t.Keys <= m.Keys && forall k :: k in t ==> KeepsValue(t[k], m[k])
  }

  ghost predicate KeepsValue(t: Json, m: Json)
    decreases t, 1
  {
    t == m || (t.Obj? && m.Obj? && Keeps(t.members, m.members))
  }

  lemma {:induction false} KeepsTrans(a: Json, b: Json, c: Json)
    requires KeepsValue(a, b) && KeepsValue(b, c)
    ensures KeepsValue(a, c)
    decreases a
  {
    if a != b && b != c {
      forall k | k in a.members ensures KeepsValue(a.members[k], c.members[k]) {
        KeepsTrans(a.members[k], b.members[k], c.members[k]);
      }
    }
  }

  lemma {:induction false} MergeFieldKeeps(t: Config, e: Config, f: Field)
    ensures Keeps(t, MergeField(t, e, f))
    decreases f, 0
  {
    if Nests(f) && f.key in t && f.key in e && t[f.key].Obj? && e[f.key].Obj? {
      MergeKeeps(t[f.key].members, e[f.key].members, f.children);
    }
  }

  /** Merging never overrides a value the caller supplied. */
  lemma {:induction false} MergeKeeps(t: Config, e: Config, fields: seq<Field>)
    ensures Keeps(t, Merge(t, e, fields))
    decreases fields, 1
  {
    if fields != [] {
      var one := MergeField(t, e, fields[0]);
      MergeFieldKeeps(t, e, fields[0]);
      MergeKeeps(one, e, fields[1..]);
      KeepsTrans(Obj(t), Obj(one), Obj(Merge(t, e, fields)));
      assert KeepsValue(Obj(t), Obj(Merge(t, e, fields)));
    }
  }

  // -------------------------------------------------- what is gone and reported

  /** The value at a path of object keys, if the path exists. */
  function At(config: Config, path: seq<string>): (r: seq<Json>)
    ensures |r| <= 1
    decreases |path|
  {
    if path == [] || path[0] !in config then []
    else if |path| == 1 then [config[path[0]]]
    else if config[path[0]].Obj? then At(config[path[0]].members, path[1..])
    else []
  }

  /** The schema marks the path as secret: object fields lead to a password field. */
  predicate SecretPath(fields: seq<Field>, path: seq<string>)
    decreases |path|
  {
    path != [] && exists i :: 0 <= i < |fields| && SecretVia(fields[i], path)
  }

  predicate SecretVia(f: Field, path: seq<string>)
    requires path != []
    decreases |path|, 0
  {
    f.key == path[0] &&
    if |path| == 1 then f.fieldType == Password else f.fieldType == Object && SecretPath(f.children, path[1..])
  }

  /** The schema's secret paths in the order they are visited: bridge.SecretKeys. */
  function SecretPaths(fields: seq<Field>): seq<seq<string>>
    decreases fields, 1
  {
    if fields == [] then [] else SecretPathsOf(fields[0]) + SecretPaths(fields[1..])
  }

  function SecretPathsOf(f: Field): seq<seq<string>>
    decreases f, 0
  {
    if IsSecretField(f) then [[f.key]]
    else if Nests(f) then Prefixed([f.key], SecretPaths(f.children))
    else []
  }

  lemma InPrefixed(k: string, paths: seq<seq<string>>, p: seq<string>)
    ensures p in Prefixed([k], paths) <==> p != [] && p[0] == k && p[1..] in paths
  {
    var ps := Prefixed([k], paths);
    forall i | 0 <= i < |paths| ensures ps[i][0] == k && ps[i][1..] == paths[i] {
    }
    if p != [] && p[0] == k && p[1..] in paths {
      var i :| 0 <= i < |paths| && paths[i] == p[1..];
      assert ps[i] == p;
    }
  }

  lemma {:induction false} SecretPathsAreSecret(fields: seq<Field>, p: seq<string>)
    ensures p in SecretPaths(fields) <==> SecretPath(fields, p)
    decreases fields, 1
  {
    if fields != [] {
      SecretPathsOfField(fields[0], p);
      SecretPathsAreSecret(fields[1..], p);
      if p != [] {
        assert SecretPath(fields, p) <==> SecretVia(fields[0], p) || SecretPath(fields[1..], p) by {
          if SecretPath(fields[1..], p) {
            var i :| 0 <= i < |fields[1..]| && SecretVia(fields[1..][i], p);
            assert SecretVia(fields[i + 1], p);
          }
          if SecretPath(fields, p) && !SecretVia(fields[0], p) {
            var i :| 0 <= i < |fields| && SecretVia(fields[i], p);
            assert SecretVia(fields[1..][i - 1], p);
          }
        }
      }
    }
  }

  lemma {:induction false} SecretPathsOfField(f: Field, p: seq<string>)
    ensures p in SecretPathsOf(f) <==> p != [] && SecretVia(f, p)
    decreases f, 0
  {
    if |p| == 1 { assert p == [p[0]]; }
    if Nests(f) {
      InPrefixed(f.key, SecretPaths(f.children), p);
      if p != [] {
        SecretPathsAreSecret(f.children, p[1..]);
      }
    }
  }

  // ------------------------------------------------ scrubbing as a list of deletions

  predicate AllNonEmpty(paths: seq<seq<string>>) {
    forall i :: 0 <= i < |paths| ==> paths[i] != []
  }

  lemma SecretPathsNonEmpty(fields: seq<Field>)
    ensures AllNonEmpty(SecretPaths(fields))
  {
    var paths := SecretPaths(fields);
    forall i | 0 <= i < |paths| ensures paths[i] != [] {
      assert paths[i] in paths;
      SecretPathsAreSecret(fields, paths[i]);
    }
  }

  function Delete(config: Config, p: seq<string>): Config
    decreases |p|
  {
    if p == [] || p[0] !in config then config
    else if |p| == 1 then config - {p[0]}
    else if config[p[0]].Obj? then config[p[0] := Obj(Delete(config[p[0]].members, p[1..]))]
    else config
  }

  predicate NonEmptyString(config: Config, p: seq<string>) {
    At(config, p) != [] && At(config, p)[0].Str? && At(config, p)[0].s != ""
  }

  function DeleteAll(config: Config, paths: seq<seq<string>>): Scrubbed
    decreases |paths|
  {
    if paths == [] then Scrubbed(config, [])
    else
      var rest := DeleteAll(Delete(config, paths[0]), paths[1..]);
      Scrubbed(rest.config, (if NonEmptyString(config, paths[0]) then [paths[0]] else []) + rest.reported)
  }

  lemma {:induction false} DeleteAllConcat(config: Config, a: seq<seq<string>>, b: seq<seq<string>>)
    ensures DeleteAll(config, a + b).config == DeleteAll(DeleteAll(config, a).config, b).config
    ensures DeleteAll(config, a + b).reported
            == DeleteAll(config, a).reported + DeleteAll(DeleteAll(config, a).config, b).reported
    decreases |a|
  {
    if a == [] {
      NothingFirst(b);
      NothingFirst(DeleteAll(config, b).reported);
    } else {
      hide DeleteAll, Delete, NonEmptyString;
      var next, tail := Delete(config, a[0]), a[1..];
      DeleteAllConcat(next, tail, b);
      SplitFirst(a, b);
      DeleteAllFirst(config, a[0], tail + b);
      DeleteAllFirst(config, a[0], tail);
      Associate(if NonEmptyString(config, a[0]) then [a[0]] else [],
                DeleteAll(next, tail).reported, DeleteAll(DeleteAll(next, tail).config, b).reported);
    }
  }

  lemma DeleteAllFirst(config: Config, p: seq<string>, rest: seq<seq<string>>)
    ensures DeleteAll(config, [p] + rest).config == DeleteAll(Delete(config, p), rest).config
    ensures DeleteAll(config, [p] + rest).reported
         == (if NonEmptyString(config, p) then [p] else []) + DeleteAll(Delete(config, p), rest).reported
  {
    hide Delete, NonEmptyString;
    assert ([p] + rest)[1..] == rest;
  }

  lemma {:induction false} DeleteAllInside(config: Config, k: string, paths: seq<seq<string>>)
    requires AllNonEmpty(paths)
    ensures DeleteAll(config, Prefixed([k], paths)) ==
            if k in config && config[k].Obj? then
              var inner := DeleteAll(config[k].members, paths);
              Scrubbed(config[k := Obj(inner.config)], Prefixed([k], inner.reported))
            else Scrubbed(config, [])
    decreases |paths|
  {
    if paths == [] {
      if k in config && config[k].Obj? { assert config[k := Obj(config[k].members)] == config; }
    } else {
      var p := [k] + paths[0];
      assert Prefixed([k], paths)[1..] == Prefixed([k], paths[1..]);
      assert p[1..] == paths[0] && Prefixed([k], paths)[0] == p;
      DeleteAllInside(Delete(config, p), k, paths[1..]);
      if k in config && config[k].Obj? {
        var m := config[k].members;
        assert NonEmptyString(config, p) == NonEmptyString(m, paths[0]);
        PrefixedConcat([k], if NonEmptyString(m, paths[0]) then [paths[0]] else [],
                       DeleteAll(Delete(m, paths[0]), paths[1..]).reported);
      }
    }
  }

  lemma {:induction false} StripIsDeleteAll(config: Config, fields: seq<Field>)
    ensures Strip(config, fields) == DeleteAll(config, SecretPaths(fields))
    decreases fields, 1
  {
    if fields != [] {
      StripFieldIsDeleteAll(config, fields[0]);
      StripIsDeleteAll(StripField(config, fields[0]).config, fields[1..]);
      DeleteAllConcat(config, SecretPathsOf(fields[0]), SecretPaths(fields[1..]));
    }
  }

  lemma {:induction false} StripFieldIsDeleteAll(config: Config, f: Field)
    ensures StripField(config, f) == DeleteAll(config, SecretPathsOf(f))
    decreases f, 0
  {
    if IsSecretField(f) {
      assert SecretPathsOf(f)[1..] == [];
      if f.key !in config { assert Delete(config, [f.key]) == config; }
    } else if Nests(f) {
      SecretPathsNonEmpty(f.children);
      DeleteAllInside(config, f.key, SecretPaths(f.children));
      if f.key in config && config[f.key].Obj? {
        StripIsDeleteAll(config[f.key].members, f.children);
      }
    }
  }

  // --------------------------------------------------------- what deletions leave

  lemma {:induction false} DeleteLeaves(config: Config, p: seq<string>, q: seq<string>)
    requires p != []
    ensures p <= q ==> At(Delete(config, p), q) == []
    ensures At(config, q) == [] ==> At(Delete(config, p), q) == []
    ensures NonEmptyString(Delete(config, p), q) <==> NonEmptyString(config, q) && !(p <= q)
    decreases |p|
  {
    if q != [] && p[0] == q[0] && p[0] in config && config[p[0]].Obj? && |p| > 1 && |q| > 1 {
      DeleteLeaves(config[p[0]].members, p[1..], q[1..]);
      assert p <= q <==> p[1..] <= q[1..] by {
        assert p == [p[0]] + p[1..] && q == [q[0]] + q[1..];
      }
    } else if |p| == 1 && q != [] && p[0] == q[0] {
      assert p <= q;
    } else if |p| > 1 && |q| == 1 {
      assert !(p <= q);
    }
  }

  lemma {:induction false} DeleteAllGone(config: Config, paths: seq<seq<string>>, q: seq<string>)
    requires AllNonEmpty(paths)
    ensures q in paths || At(config, q) == [] ==> At(DeleteAll(config, paths).config, q) == []
    decreases |paths|
  {
    if paths != [] {
      DeleteLeaves(config, paths[0], q);
      DeleteAllGone(Delete(config, paths[0]), paths[1..], q);
    }
  }

  /** The path is visited, and no proper prefix of it was deleted before its first visit. */
  predicate Unshadowed(paths: seq<seq<string>>, q: seq<string>)
    decreases |paths|
  {
    paths != [] && (paths[0] == q || (!(paths[0] <= q) && Unshadowed(paths[1..], q)))
  }

  lemma {:induction false} DeleteAllReports(config: Config, paths: seq<seq<string>>, q: seq<string>)
    requires AllNonEmpty(paths)
    ensures q in DeleteAll(config, paths).reported <==> Unshadowed(paths, q) && NonEmptyString(config, q)
    decreases |paths|
  {
    if paths != [] {
      DeleteLeaves(config, paths[0], q);
      DeleteAllReports(Delete(config, paths[0]), paths[1..], q);
    }
  }

  /** Scrubbing leaves no key at any secret path of the schema. */
  lemma ScrubLeavesNoSecret(config: Config, schema: seq<Field>, path: seq<string>)
    requires SecretPath(schema, path)
    ensures At(Strip(config, schema).config, path) == []
  {
    StripIsDeleteAll(config, schema);
    SecretPathsAreSecret(schema, path);
    SecretPathsNonEmpty(schema);
    DeleteAllGone(config, SecretPaths(schema), path);
  }

  /** Exactly what is reported, for every schema: the secret paths that held a non-empty string
      and that no earlier deletion of the schema took away with an enclosing object. */
  lemma ReportedIff(config: Config, schema: seq<Field>, path: seq<string>)
    ensures path in Strip(config, schema).reported <==>
              Unshadowed(SecretPaths(schema), path) && NonEmptyString(config, path)
  {
    StripIsDeleteAll(config, schema);
    SecretPathsNonEmpty(schema);
    DeleteAllReports(config, SecretPaths(schema), path);
  }

  predicate DistinctKeys(fields: seq<Field>)
    decreases fields
  {
    && (forall i, j :: 0 <= i < j < |fields| ==> fields[i].key != fields[j].key)
    && (forall i :: 0 <= i < |fields| ==> DistinctKeys(fields[i].children))
  }

  lemma {:induction false} UnshadowedConcat(a: seq<seq<string>>, b: seq<seq<string>>, q: seq<string>)
    requires forall i :: 0 <= i < |a| ==> !(a[i] <= q)
    ensures Unshadowed(a + b, q) <==> Unshadowed(b, q)
    decreases |a|
  {
    if a == [] {
      assert a + b == b;
    } else {
      UnshadowedConcat(a[1..], b, q);
      assert (a + b)[1..] == a[1..] + b;
    }
  }

  lemma {:induction false} UnshadowedInFirst(a: seq<seq<string>>, b: seq<seq<string>>, q: seq<string>)
    requires Unshadowed(a, q)
    ensures Unshadowed(a + b, q)
    decreases |a|
  {
    if a[0] != q { UnshadowedInFirst(a[1..], b, q); }
    assert (a + b)[1..] == a[1..] + b;
  }

  lemma ConsPrefix(k: string, p: seq<string>, q: seq<string>)
    ensures [k] + p <= [k] + q <==> p <= q
    ensures [k] + p == [k] + q <==> p == q
  {
    assert ([k] + p)[1..] == p && ([k] + q)[1..] == q;
  }

  lemma {:induction false} UnshadowedPrefixed(k: string, paths: seq<seq<string>>, q: seq<string>)
    requires Unshadowed(paths, q)
    ensures Unshadowed(Prefixed([k], paths), [k] + q)
    decreases |paths|
  {
    var ps := Prefixed([k], paths);
    assert ps[0] == [k] + paths[0] && ps[1..] == Prefixed([k], paths[1..]);
    if paths[0] != q {
      UnshadowedPrefixed(k, paths[1..], q);
      ConsPrefix(k, paths[0], q);
    }
  }

  /** Where sibling fields have distinct keys nothing is shadowed. */
  lemma {:induction false} DistinctKeysUnshadowed(fields: seq<Field>, q: seq<string>)
    requires DistinctKeys(fields) && SecretPath(fields, q)
    ensures Unshadowed(SecretPaths(fields), q)
    decreases |q|, fields
  {
    var f, rest := fields[0], fields[1..];
    if SecretVia(f, q) {
      if |q| == 1 {
        assert q == [f.key];
      } else {
        DistinctKeysUnshadowed(f.children, q[1..]);
        UnshadowedPrefixed(f.key, SecretPaths(f.children), q[1..]);
        assert [f.key] + q[1..] == q;
      }
      UnshadowedInFirst(SecretPathsOf(f), SecretPaths(rest), q);
    } else {
      var i :| 0 <= i < |fields| && SecretVia(fields[i], q);
      assert SecretVia(rest[i - 1], q);
      var paths := SecretPathsOf(f);
      forall j | 0 <= j < |paths| ensures !(paths[j] <= q) {
        assert paths[j] in paths;
        SecretPathsOfField(f, paths[j]);
        assert paths[j][0] == f.key != fields[i].key == q[0];
      }
      assert DistinctKeys(rest) by {
        forall a, b | 0 <= a < b < |rest| ensures rest[a].key != rest[b].key {
          assert fields[a + 1].key != fields[b + 1].key;
        }
      }
      DistinctKeysUnshadowed(rest, q);
      UnshadowedConcat(SecretPathsOf(f), SecretPaths(rest), q);
    }
  }

  /** So with distinct sibling keys the report is exactly the secret paths that held a
      non-empty string. */
  lemma ReportIsExact(config: Config, schema: seq<Field>, path: seq<string>)
    requires DistinctKeys(schema)
    ensures path in Strip(config, schema).reported <==> SecretPath(schema, path) && NonEmptyString(config, path)
  {
    ReportedIff(config, schema, path);
    if SecretPath(schema, path) { DistinctKeysUnshadowed(schema, path); }
    if Unshadowed(SecretPaths(schema), path) {
      UnshadowedIsListed(SecretPaths(schema), path);
      SecretPathsAreSecret(schema, path);
    }
  }

  lemma {:induction false} UnshadowedIsListed(paths: seq<seq<string>>, q: seq<string>)
    requires Unshadowed(paths, q)
    ensures q in paths
    decreases |paths|
  {
    if paths[0] != q { UnshadowedIsListed(paths[1..], q); }
  }

  /** A schema in which a password field and a later object field share a key does lose reports. */
  lemma ClashingKeysLoseReport(k: string, inner: string, secret: string)
    requires secret != ""
    ensures var schema := [Field(k, Password, []), Field(k, Object, [Field(inner, Password, [])])];
            var config := map[k := Obj(map[inner := Str(secret)])];
            && SecretPath(schema, [k, inner]) && NonEmptyString(config, [k, inner])
            && [k, inner] !in Strip(config, schema).reported
  {
    var leaf := Field(inner, Password, []);
    var schema := [Field(k, Password, []), Field(k, Object, [leaf])];
    var config := map[k := Obj(map[inner := Str(secret)])];
    var path := [k, inner];
    assert path[1..] == [inner];
    assert SecretVia(leaf, path[1..]);
    assert SecretPath([leaf], path[1..]) by { assert [leaf][0] == leaf; }
    assert SecretVia(schema[1], path);
    assert At(config, path) == [Str(secret)];
    ReportedIff(config, schema, path);
    assert SecretPaths(schema)[0] == [k];
    assert [k] <= path;
  }

  // ------------------------------------------------------- where merged values come from

  lemma {:induction false} KeepsAt(t: Config, m: Config, q: seq<string>)
    requires Keeps(t, m) && At(t, q) != []
    ensures At(m, q) != [] && KeepsValue(At(t, q)[0], At(m, q)[0])
    decreases |q|
  {
    if |q| > 1 {
      assert KeepsValue(t[q[0]], m[q[0]]);
      if t[q[0]] == m[q[0]] { KeepsItself(t[q[0]].members); }
      KeepsAt(t[q[0]].members, m[q[0]].members, q[1..]);
    }
  }

  lemma KeepsItself(t: Config)
    ensures Keeps(t, t)
  {
  }

  /** The stored value was taken because the caller left out a secret path at or above `q`. */
  ghost predicate Filled(fields: seq<Field>, t: Config, e: Config, q: seq<string>, v: Json) {
    && At(t, q) == [] && At(e, q) == [v]
    && exists n :: 0 < n <= |q| && SecretPath(fields, q[..n]) && At(t, q[..n]) == []
  }

  lemma {:induction false} MergeFieldSource(t: Config, e: Config, f: Field, q: seq<string>, v: Json)
    requires At(MergeField(t, e, f), q) == [v] && !v.Obj?
    ensures At(t, q) == [v] || Filled([f], t, e, q, v)
    decreases f, 0
  {
    var k := q[0];
    if IsSecretField(f) {
      if f.key == k && k !in t && k in e {
        assert q[..1] == [k] && SecretVia([f][0], q[..1]);
        assert SecretPath([f], q[..1]);
      }
    } else if Nests(f) && f.key == k && k in t && k in e && t[k].Obj? && e[k].Obj? {
      MergeSource(t[k].members, e[k].members, f.children, q[1..], v);
      if At(t, q) != [v] {
        var n :| 0 < n <= |q[1..]| && SecretPath(f.children, q[1..][..n]) && At(t[k].members, q[1..][..n]) == [];
        assert q[..n + 1][1..] == q[1..][..n];
        assert SecretVia([f][0], q[..n + 1]);
        assert SecretPath([f], q[..n + 1]) && At(t, q[..n + 1]) == [];
      }
    }
  }

  /** Every leaf of a merged config is the caller's, or it is the stored one and stands at or
      below a secret path that the caller left out. */
  lemma {:induction false} MergeSource(t: Config, e: Config, fields: seq<Field>, q: seq<string>, v: Json)
    requires At(Merge(t, e, fields), q) == [v] && !v.Obj?
    ensures || At(t, q) == [v]
            || (&& At(t, q) == [] && At(e, q) == [v]
                && exists n :: 0 < n <= |q| && SecretPath(fields, q[..n]) && At(t, q[..n]) == [])
    decreases fields, 1
  {
    if fields != [] {
      var f, rest := fields[0], fields[1..];
      var m := MergeField(t, e, f);
      MergeSource(m, e, rest, q, v);
      MergeFieldKeeps(t, e, f);
      if At(m, q) == [v] {
        MergeFieldSource(t, e, f, q, v);
        if At(t, q) != [v] {
          var n :| 0 < n <= |q| && SecretPath([f], q[..n]) && At(t, q[..n]) == [];
          assert SecretVia(fields[0], q[..n]);
        }
      } else {
        if At(t, q) != [] { KeepsAt(t, m, q); }
        var n :| 0 < n <= |q| && SecretPath(rest, q[..n]) && At(m, q[..n]) == [];
        if At(t, q[..n]) != [] { KeepsAt(t, m, q[..n]); }
        var i :| 0 <= i < |rest| && SecretVia(rest[i], q[..n]);
        assert SecretVia(fields[i + 1], q[..n]);
      }
    }
  }
}

/**
 * Properties of the plugin loader: what a control array writes, how the
 * install-template list is rebuilt and searched, and what dispatch does
 * with the top-level members of a document.
 */
module PluginLemmas {
  import opened Wrappers
  import opened VtoyJson
  import opened PluginSpec

  // ---------------------------------------------------------------- control

  lemma ControlElementsOkSplit(a: seq<Node>, b: seq<Node>)
    requires ControlElementsOk(a + b)
    ensures ControlElementsOk(a) && ControlElementsOk(b)
  {
    assert forall i :: 0 <= i < |a| ==> (a + b)[i] == a[i];
    assert forall i :: 0 <= i < |b| ==> (a + b)[|a| + i] == b[i];
  }

  /** Running the control elements a + b is running a, then b on the result. */
  lemma {:induction false} ControlEnvAppend(env: Env, a: seq<Node>, b: seq<Node>)
    requires ControlElementsOk(a + b)
    ensures ControlElementsOk(a) && ControlElementsOk(b)
    ensures ControlEnv(env, a + b) == ControlEnv(ControlEnv(env, a), b)
    decreases |b|
  {
    ControlElementsOkSplit(a, b);
    if b == [] {
      assert a + b == a;
    } else {
      var b', x := b[..|b| - 1], b[|b| - 1];
      assert (a + b)[..|a + b| - 1] == a + b';
      assert (a + b)[|a + b| - 1] == x;
      ControlEnvAppend(env, a, b');
      calc {
        ControlEnv(env, a + b);
        ControlStep(ControlEnv(env, a + b'), x);
        ControlStep(ControlEnv(ControlEnv(env, a), b'), x);
        ControlEnv(ControlEnv(env, a), b);
      }
    }
  }

  /** An array element that is not an object writes nothing: removing it changes nothing. */
  lemma ControlSkipsNonObjects(env: Env, a: seq<Node>, x: Node, b: seq<Node>)
    requires ControlElementsOk(a + [x] + b)
    requires x.kind != Object
    ensures ControlElementsOk(a + b)
    ensures ControlEnv(env, a + [x] + b) == ControlEnv(env, a + b)
  {
    ControlEnvAppend(env, a + [x], b);
    ControlEnvAppend(env, a, [x]);
    assert [x][..0] == [];
    assert ControlElementsOk(a + b) by {
      forall i | 0 <= i < |a + b| && (a + b)[i].kind == Object
        ensures |(a + b)[i].children| > 0
      {
        if i < |a| {
          assert (a + b)[i] == (a + [x] + b)[i];
        } else {
          assert (a + b)[i] == (a + [x] + b)[i + 1];
        }
      }
    }
    ControlEnvAppend(env, a, b);
  }

  /**
   * Only the first member of an object element matters: an element with
   * the same first member and any other members has the same effect.
   */
  lemma ControlFirstMemberOnly(env: Env, a: seq<Node>, x: Node, y: Node, b: seq<Node>)
    requires ControlElementsOk(a + [x] + b)
    requires x.kind == Object && y.kind == Object && |x.children| > 0 && |y.children| > 0
    requires y.children[0] == x.children[0]
    ensures ControlElementsOk(a + [y] + b)
    ensures ControlEnv(env, a + [x] + b) == ControlEnv(env, a + [y] + b)
  {
    assert ControlElementsOk(a + [y] + b) by {
      forall i | 0 <= i < |a + [y] + b| && (a + [y] + b)[i].kind == Object
        ensures |(a + [y] + b)[i].children| > 0
      {
        if i != |a| {
          assert (a + [y] + b)[i] == (a + [x] + b)[i];
        }
      }
    }
    ControlEnvAppend(env, a + [x], b);
    ControlEnvAppend(env, a, [x]);
    ControlEnvAppend(env, a + [y], b);
    ControlEnvAppend(env, a, [y]);
    assert [x][..0] == [] && [y][..0] == [];
  }

  /**
   * The last element that assigns a variable decides its value: later
   * elements overwrite earlier ones with the same name.
   */
  lemma {:induction false} ControlLastWriterWins(env: Env, elems: seq<Node>, k: string, j: int)
    requires ControlElementsOk(elems)
    requires 0 <= j < |elems| && Assigns(elems[j], k)
    requires forall i :: j < i < |elems| ==> !Assigns(elems[i], k)
    ensures k in ControlEnv(env, elems)
    ensures ControlEnv(env, elems)[k] == ControlAssignment(elems[j]).value.1
    decreases |elems|
  {
    var prefix := elems[..|elems| - 1];
    if j < |elems| - 1 {
      assert forall i :: j < i < |prefix| ==> prefix[i] == elems[i];
      ControlLastWriterWins(env, prefix, k, j);
    }
  }

  /** A variable no element assigns keeps its binding, or its absence. */
  lemma {:induction false} ControlUntouchedKeys(env: Env, elems: seq<Node>, k: string)
    requires ControlElementsOk(elems)
    requires forall i :: 0 <= i < |elems| ==> !Assigns(elems[i], k)
    ensures SameBinding(env, ControlEnv(env, elems), k)
    decreases |elems|
  {
    if elems != [] {
      var prefix := elems[..|elems| - 1];
      assert forall i :: 0 <= i < |prefix| ==> prefix[i] == elems[i];
      ControlUntouchedKeys(env, prefix, k);
      assert !Assigns(elems[|elems| - 1], k);
    }
  }

  // ----------------------------------------------------------- auto_install

  /** The accepted entries of elems, in array order: the reference the list is compared with. */
  function AcceptedEntries(elems: seq<Node>): seq<InstallTemplate>
  {
    if elems == [] then [] else Listed(TemplateEntry(elems[0])) + AcceptedEntries(elems[1..])
  }

  function Reverse<T>(s: seq<T>): seq<T>
  {
    if s == [] then [] else [s[|s| - 1]] + Reverse(s[..|s| - 1])
  }

  lemma {:induction false} AcceptedEntriesSnoc(a: seq<Node>, x: Node)
    ensures AcceptedEntries(a + [x]) == AcceptedEntries(a) + Listed(TemplateEntry(x))
  {
    if a == [] {
      assert [] + [x] == [x];
      assert [x][1..] == [];
    } else {
      assert (a + [x])[0] == a[0];
      assert (a + [x])[1..] == a[1..] + [x];
      AcceptedEntriesSnoc(a[1..], x);
    }
  }

  lemma ReverseSnoc<T>(s: seq<T>, t: seq<T>)
    requires |t| <= 1
    ensures Reverse(s + t) == t + Reverse(s)
  {
    if t != [] {
      assert (s + t)[..|s + t| - 1] == s;
    } else {
      assert s + t == s;
    }
  }

  /**
   * After an auto_install array the list is the accepted elements in
   * reverse array order: the last accepted element is the head.
   */
  lemma {:induction false} RegisteredIsReversedAccepted(elems: seq<Node>)
    ensures Registered(elems) == Reverse(AcceptedEntries(elems))
    decreases |elems|
  {
    if elems != [] {
      var prefix, x := elems[..|elems| - 1], elems[|elems| - 1];
      assert elems == prefix + [x];
      RegisteredIsReversedAccepted(prefix);
      AcceptedEntriesSnoc(prefix, x);
      ReverseSnoc(AcceptedEntries(prefix), Listed(TemplateEntry(x)));
    }
  }

  /** Every element that yields an entry puts it in the list. */
  lemma {:induction false} RegisteredContains(elems: seq<Node>, i: int)
    requires 0 <= i < |elems| && TemplateEntry(elems[i]).Some?
    ensures TemplateEntry(elems[i]).value in Registered(elems)
    decreases |elems|
  {
    var prefix, x := elems[..|elems| - 1], elems[|elems| - 1];
    var reg, last := Registered(elems), Listed(TemplateEntry(x));
    assert reg == last + Registered(prefix);
    if i < |prefix| {
      assert prefix[i] == elems[i];
      RegisteredContains(prefix, i);
    } else {
      assert x == elems[i];
      assert last == [TemplateEntry(x).value];
    }
  }

  /** Every entry of the list comes from some element of the array. */
  lemma {:induction false} RegisteredOrigin(elems: seq<Node>, t: InstallTemplate) returns (i: int)
    requires t in Registered(elems)
    ensures 0 <= i < |elems| && TemplateEntry(elems[i]) == Some(t)
    decreases |elems|
  {
    var prefix, x := elems[..|elems| - 1], elems[|elems| - 1];
    assert Registered(elems) == Listed(TemplateEntry(x)) + Registered(prefix);
    if t in Registered(prefix) {
      i := RegisteredOrigin(prefix, t);
      assert prefix[i] == elems[i];
    } else {
      i := |elems| - 1;
    }
  }

  /** An entry is in the list exactly when some element of the array yields it. */
  lemma RegisteredMembers(elems: seq<Node>, t: InstallTemplate)
    ensures t in Registered(elems) <==> exists i :: 0 <= i < |elems| && TemplateEntry(elems[i]) == Some(t)
  {
    if t in Registered(elems) {
      var i := RegisteredOrigin(elems, t);
    }
    if exists i :: 0 <= i < |elems| && TemplateEntry(elems[i]) == Some(t) {
      var i :| 0 <= i < |elems| && TemplateEntry(elems[i]) == Some(t);
      RegisteredContains(elems, i);
    }
  }

  /** An empty or all-invalid array leaves an empty list, and only such an array does. */
  lemma RegisteredEmpty(elems: seq<Node>)
    ensures Registered(elems) == [] <==> forall i :: 0 <= i < |elems| ==> TemplateEntry(elems[i]).None?
  {
    if Registered(elems) != [] {
      RegisteredMembers(elems, Registered(elems)[0]);
    } else {
      forall i | 0 <= i < |elems| ensures TemplateEntry(elems[i]).None? {
        if TemplateEntry(elems[i]).Some? {
          RegisteredMembers(elems, TemplateEntry(elems[i]).value);
        }
      }
    }
  }

  /** One more element of an auto_install array puts its entry, if any, at the head. */
  lemma RegisteredStep(elems: seq<Node>, i: int)
    requires 0 <= i < |elems|
    ensures Registered(elems[..i + 1]) == Listed(TemplateEntry(elems[i])) + Registered(elems[..i])
  {
    assert elems[..i + 1][..i] == elems[..i];
  }

  /** Every entry of a rebuilt list has absolute paths that fit their fields. */
  lemma RegisteredWellFormed(elems: seq<Node>)
    ensures forall t :: t in Registered(elems) ==> WellFormedTemplate(t)
  {
    forall t | t in Registered(elems) ensures WellFormedTemplate(t) {
      RegisteredMembers(elems, t);
    }
  }

  /** Handling the same auto_install node twice leaves the list of handling it once. */
  lemma AutoInstallIdempotent(reg: seq<InstallTemplate>, json: Node)
    ensures AutoInstallSection(AutoInstallSection(reg, json), json) == AutoInstallSection(reg, json)
  {
  }

  /** An auto_install array throws the old list away: the result does not depend on it. */
  lemma AutoInstallForgetsOldList(reg1: seq<InstallTemplate>, reg2: seq<InstallTemplate>, json: Node)
    requires json.kind == Array
    ensures AutoInstallSection(reg1, json) == AutoInstallSection(reg2, json)
  {
  }

  // ----------------------------------------------------------------- lookup

  /**
   * Looking an image up after an auto_install array yields the template of
   * the last element that registered that image.
   */
  lemma {:induction false} LookupLastRegisteredWins(elems: seq<Node>, p: string, j: int)
    requires 0 <= j < |elems| && RegistersImage(elems[j], p)
    requires forall i :: j < i < |elems| ==> !RegistersImage(elems[i], p)
    ensures Lookup(Registered(elems), p) == Some(TemplateEntry(elems[j]).value.templatepath)
    decreases |elems|
  {
    var prefix, x := elems[..|elems| - 1], elems[|elems| - 1];
    var reg := Registered(elems);
    assert reg == Listed(TemplateEntry(x)) + Registered(prefix);
    if j == |elems| - 1 {
      assert reg[0] == TemplateEntry(x).value;
    } else {
      assert forall i :: j < i < |prefix| ==> prefix[i] == elems[i];
      assert prefix[j] == elems[j];
      LookupLastRegisteredWins(prefix, p, j);
      assert !RegistersImage(x, p);
      if TemplateEntry(x).Some? {
        assert reg[0].isopath != p;
        assert reg[1..] == Registered(prefix);
      } else {
        assert reg == Registered(prefix);
      }
    }
  }

  /** An image no element registered is not found. */
  lemma LookupUnregistered(elems: seq<Node>, p: string)
    requires forall i :: 0 <= i < |elems| ==> !RegistersImage(elems[i], p)
    ensures Lookup(Registered(elems), p) == None
  {
    var reg := Registered(elems);
    forall i | 0 <= i < |reg| ensures reg[i].isopath != p {
      RegisteredMembers(elems, reg[i]);
    }
  }

  // --------------------------------------------------------------- dispatch

  /** g_plugin_entries read as a map: each key selects its own handler, nothing else selects one. */
  lemma EntryForKeys(name: Option<string>)
    ensures EntryFor(name) == Some(Control) <==> name == Some("control")
    ensures EntryFor(name) == Some(Theme) <==> name == Some("theme")
    ensures EntryFor(name) == Some(AutoInstall) <==> name == Some("auto_install")
  {
    if name.Some? {
      assert PLUGIN_ENTRIES[0].0 == "control" && PLUGIN_ENTRIES[1].0 == "theme" && PLUGIN_ENTRIES[2].0 == "auto_install";
      assert PLUGIN_ENTRIES[1..][1..] == [PLUGIN_ENTRIES[2]];
    }
  }

  lemma ConfigWellFormedSplit(a: seq<Node>, b: seq<Node>)
    requires ConfigWellFormed(a + b)
    ensures ConfigWellFormed(a) && ConfigWellFormed(b)
  {
    assert forall i :: 0 <= i < |a| ==> (a + b)[i] == a[i];
    assert forall i :: 0 <= i < |b| ==> (a + b)[|a| + i] == b[i];
  }

  /** Dispatching a + b is dispatching a, then b on the result. */
  lemma {:induction false} DispatchAppend(st: PluginState, a: seq<Node>, b: seq<Node>, isodisk: string, files: set<string>)
    requires ConfigWellFormed(a + b)
    ensures ConfigWellFormed(a) && ConfigWellFormed(b)
    ensures Dispatch(st, a + b, isodisk, files) == Dispatch(Dispatch(st, a, isodisk, files), b, isodisk, files)
    decreases |b|
  {
    ConfigWellFormedSplit(a, b);
    if b == [] {
      assert a + b == a;
    } else {
      var b' := b[..|b| - 1];
      assert (a + b)[..|a + b| - 1] == a + b';
      assert (a + b)[|a + b| - 1] == b[|b| - 1];
      DispatchAppend(st, a, b', isodisk, files);
    }
  }

  /** A top-level member with an unknown name (or none) has no effect, and the members after it still run. */
  lemma DispatchSkipsUnknown(st: PluginState, a: seq<Node>, x: Node, b: seq<Node>, isodisk: string, files: set<string>)
    requires ConfigWellFormed(a + [x] + b)
    requires EntryFor(x.name).None?
    ensures ConfigWellFormed(a + b)
    ensures Dispatch(st, a + [x] + b, isodisk, files) == Dispatch(st, a + b, isodisk, files)
  {
    DispatchAppend(st, a + [x], b, isodisk, files);
    DispatchAppend(st, a, [x], isodisk, files);
    assert [x][..0] == [];
    assert ConfigWellFormed(a + b) by {
      forall i | 0 <= i < |a + b| && EntryFor((a + b)[i].name) == Some(Control)
        ensures ControlWellFormed((a + b)[i])
      {
        if i < |a| {
          assert (a + b)[i] == (a + [x] + b)[i];
        } else {
          assert (a + b)[i] == (a + [x] + b)[i + 1];
        }
      }
    }
    DispatchAppend(st, a, b, isodisk, files);
  }

  /** Node n rebuilds the install-template list. */
  predicate RebuildsRegistry(n: Node)
  {
    EntryFor(n.name) == Some(AutoInstall) && n.kind == Array
  }

  /** Without an auto_install array the list survives a whole dispatch unchanged. */
  lemma {:induction false} DispatchKeepsRegistry(st: PluginState, nodes: seq<Node>, isodisk: string, files: set<string>)
    requires ConfigWellFormed(nodes)
    requires forall i :: 0 <= i < |nodes| ==> !RebuildsRegistry(nodes[i])
    ensures Dispatch(st, nodes, isodisk, files).templates == st.templates
    decreases |nodes|
  {
    if nodes != [] {
      var prefix := nodes[..|nodes| - 1];
      assert forall i :: 0 <= i < |prefix| ==> prefix[i] == nodes[i];
      DispatchKeepsRegistry(st, prefix, isodisk, files);
      assert !RebuildsRegistry(nodes[|nodes| - 1]);
    }
  }

  /**
   * After a dispatch the list is the one the last auto_install array built:
   * each such section fully replaces what came before.
   */
  lemma {:induction false} DispatchRegistryFromLastAutoInstall(st: PluginState, nodes: seq<Node>, j: int, isodisk: string, files: set<string>)
    requires ConfigWellFormed(nodes)
    requires 0 <= j < |nodes| && RebuildsRegistry(nodes[j])
    requires forall i :: j < i < |nodes| ==> !RebuildsRegistry(nodes[i])
    ensures Dispatch(st, nodes, isodisk, files).templates == Registered(nodes[j].children)
    decreases |nodes|
  {
    var prefix := nodes[..|nodes| - 1];
    if j < |nodes| - 1 {
      assert forall i :: j < i < |prefix| ==> prefix[i] == nodes[i];
      DispatchRegistryFromLastAutoInstall(st, prefix, j, isodisk, files);
      assert !RebuildsRegistry(nodes[|nodes| - 1]);
    }
  }
}

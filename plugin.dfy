/**
 * The plugin loader as the source runs it: the GRUB environment and the
 * global install-template list are fields of one object, and each handler
 * walks its sibling chain in a loop.  Each method is proved to leave the
 * state that the matching function of PluginSpec describes.
 */
module VentoyPlugin {
  import opened Wrappers
  import opened VtoyJson
  import opened PluginSpec
  import PluginLemmas

  /**
   * The inner loop of ventoy_parse_plugin_config: scan g_plugin_entries for
   * the first key equal to name and stop there.
   */
  method FindPluginEntry(name: Option<string>) returns (r: Option<Section>)
    ensures r == EntryFor(name)
    ensures r.Some? ==> name.Some? && (name.value, r.value) in PLUGIN_ENTRIES
    ensures name.Some? && (forall i :: 0 <= i < |PLUGIN_ENTRIES| ==> PLUGIN_ENTRIES[i].0 != name.value) ==> r.None?
  {
    var i := 0;
    while i < |PLUGIN_ENTRIES|
      invariant 0 <= i <= |PLUGIN_ENTRIES|
      invariant EntryIn(PLUGIN_ENTRIES[i..], name) == EntryFor(name)
    {
      if name.Some? && PLUGIN_ENTRIES[i].0 == name.value {
        return Some(PLUGIN_ENTRIES[i].1);
      }
      assert PLUGIN_ENTRIES[i..][1..] == PLUGIN_ENTRIES[i + 1..];
      i := i + 1;
    }
    return None;
  }

  /** What the load command found before dispatching anything. */
  datatype LoadInput =
    | NoConfigFile        // <isodisk>/ventoy/ventoy.json could not be opened
    | BufferAllocFailed   // grub_malloc of the read buffer failed
    | JsonCreateFailed    // vtoy_json_create failed
    | ParseFailed         // vtoy_json_parse rejected the text
    | Parsed(root: Node)  // the document, parsed

  class PluginContext {
    /** The GRUB environment variables. */
    var env: Env
    /** g_install_template_head and its successors, head first. */
    var templates: seq<InstallTemplate>

    /** Every registered entry has absolute paths that fit their fields. */
    ghost predicate Valid()
      reads this
    {
      forall i :: 0 <= i < |templates| ==> WellFormedTemplate(templates[i])
    }

    /** Both parts of the state, for stating what a whole load does. */
    function State(): PluginState
      reads this
    {
      PluginState(env, templates)
    }

    /** The module starts with whatever environment GRUB has and an empty list. */
    constructor (initialEnv: Env)
      ensures env == initialEnv && templates == [] && Valid()
    {
      env := initialEnv;
      templates := [];
    }

    /** ventoy_plugin_control_entry */
    method ControlEntry(json: Node, isodisk: string) returns (ret: int)
      requires ControlWellFormed(json)
      modifies this
      ensures ret == 0
      ensures env == ControlSection(old(env), json) && templates == old(templates)
    {
      if json.kind != Array {
        return 0;
      }
      var i := 0;
      while i < |json.children|
        invariant 0 <= i <= |json.children|
        invariant env == ControlEnv(old(env), json.children[..i])
        invariant templates == old(templates)
      {
        var node := json.children[i];
        assert json.children[..i + 1][..i] == json.children[..i];
        if node.kind == Object {
          var child := node.children[0];
          if child.kind == String && child.name.Some? && child.str.Some? {
            env := env[child.name.value := child.str.value];
          }
        }
        i := i + 1;
      }
      assert json.children[..i] == json.children;
      return 0;
    }

    /**
     * ventoy_plugin_theme_entry; files is the set of paths for which
     * ventoy_is_file_exist holds.
     */
    method ThemeEntry(json: Node, isodisk: string, files: set<string>) returns (ret: int)
      modifies this
      ensures ret == 0
      ensures env == ThemeSection(old(env), json, isodisk, files) && templates == old(templates)
    {
      var value := GetStringEx(json.children, "file");
      if value.Some? {
        var filepath;
        if StartsWithSlash(value.value) {
          filepath := Truncate(isodisk + value.value, THEME_PATH_SIZE);
        } else {
          filepath := Truncate(isodisk + "/ventoy/" + value.value, THEME_PATH_SIZE);
        }
        if filepath !in files {
          return 0;
        }
        env := env["vtoy_theme" := filepath];
      }
      value := GetStringEx(json.children, "gfxmode");
      if value.Some? {
        env := env["vtoy_gfxmode" := value.value];
      }
      return 0;
    }

    /** ventoy_plugin_auto_install_entry */
    method AutoInstallEntry(json: Node, isodisk: string) returns (ret: int)
      requires Valid()
      modifies this
      ensures Valid() && ret == 0
      ensures templates == AutoInstallSection(old(templates), json) && env == old(env)
    {
      if json.kind != Array {
        return 0;
      }
      // every node of the old list is freed
      templates := [];
      var i := 0;
      while i < |json.children|
        invariant 0 <= i <= |json.children|
        invariant templates == Registered(json.children[..i])
        invariant env == old(env)
      {
        var pNode := json.children[i];
        PluginLemmas.RegisteredStep(json.children, i);
        var iso := GetStringEx(pNode.children, "image");
        if iso.Some? && StartsWithSlash(iso.value) {
          var script := GetStringEx(pNode.children, "template");
          if script.Some? && StartsWithSlash(script.value) {
            var node := InstallTemplate(Truncate(iso.value, TEMPLATE_PATH_SIZE), Truncate(script.value, TEMPLATE_PATH_SIZE));
            templates := [node] + templates;
          }
        }
        i := i + 1;
      }
      assert json.children[..i] == json.children;
      PluginLemmas.RegisteredWellFormed(json.children);
      return 0;
    }

    /**
     * ventoy_parse_plugin_config: each top-level node goes to the first
     * handler whose key equals its name; handler results are ignored.
     */
    method ParsePluginConfig(nodes: seq<Node>, isodisk: string, files: set<string>) returns (ret: int)
      requires Valid() && ConfigWellFormed(nodes)
      modifies this
      ensures Valid() && ret == 0
      ensures State() == Dispatch(old(State()), nodes, isodisk, files)
    {
      var i := 0;
      while i < |nodes|
        invariant 0 <= i <= |nodes| && Valid()
        invariant State() == Dispatch(old(State()), nodes[..i], isodisk, files)
      {
        var cur := nodes[i];
        assert nodes[..i + 1][..i] == nodes[..i];
        var entry := FindPluginEntry(cur.name);
        var ignored;
        match entry {
          case None =>
          case Some(Control) => ignored := ControlEntry(cur, isodisk);
          case Some(Theme) => ignored := ThemeEntry(cur, isodisk, files);
          case Some(AutoInstall) => ignored := AutoInstallEntry(cur, isodisk);
        }
        i := i + 1;
      }
      assert nodes[..i] == nodes;
      return 0;
    }

    /**
     * ventoy_cmd_load_plugin once the configuration file has been opened,
     * read and parsed (or has failed to): only a parsed document is
     * dispatched, and only its top-level members.
     */
    method LoadPlugin(input: LoadInput, isodisk: string, files: set<string>) returns (err: int)
      requires Valid()
      requires input.Parsed? ==> ConfigWellFormed(input.root.children)
      modifies this
      ensures Valid()
      ensures err == (if input.NoConfigFile? || input.Parsed? then 0 else 1)
      ensures input.Parsed? ==> State() == Dispatch(old(State()), input.root.children, isodisk, files)
      ensures !input.Parsed? ==> State() == old(State())
    {
      match input {
        case NoConfigFile => return 0;
        case BufferAllocFailed => return 1;
        case JsonCreateFailed => return 1;
        case ParseFailed => return 1;
        case Parsed(root) =>
          var ignored := ParsePluginConfig(root.children, isodisk, files);
          return 0;
      }
    }

    /**
     * ventoy_plugin_get_install_template: walk the list from the head and
     * return the template of the first entry for isopath.
     */
    method GetInstallTemplate(isopath: string) returns (r: Option<string>)
      ensures r == Lookup(templates, isopath)
      ensures r.None? <==> forall i :: 0 <= i < |templates| ==> templates[i].isopath != isopath
      ensures r.Some? ==> exists i :: IsFirstMatch(templates, isopath, i) && templates[i].templatepath == r.value
    {
      var i := 0;
      while i < |templates|
        invariant 0 <= i <= |templates|
        invariant forall j :: 0 <= j < i ==> templates[j].isopath != isopath
        invariant Lookup(templates[i..], isopath) == Lookup(templates, isopath)
      {
        if templates[i].isopath == isopath {
          return Some(templates[i].templatepath);
        }
        assert templates[i..][1..] == templates[i + 1..];
        i := i + 1;
      }
      return None;
    }
  }
}

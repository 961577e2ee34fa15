/**
 * What each part of the Ventoy plugin loader (ventoy_plugin.c) does, as
 * functions of the state before it: the GRUB environment, a map from
 * variable names to values, and the install-template registry, the list
 * g_install_template_head as a sequence whose first element is the head.
 *
 * The imperative methods in module VentoyPlugin are proved to compute
 * exactly these functions; the properties of the functions are proved
 * here and in module PluginLemmas.
 */
module PluginSpec {
  import opened Wrappers
  import opened VtoyJson

  /** sizeof(filepath) in the theme handler. */
  const THEME_PATH_SIZE: nat := 256
  /** sizeof(isopath) and sizeof(templatepath) of an install_template. */
  const TEMPLATE_PATH_SIZE: nat := 256

  /** The GRUB environment: variable name to value. */
  type Env = map<string, string>

  /** One node of the install-template list. */
  datatype InstallTemplate = InstallTemplate(isopath: string, templatepath: string)

  /** value[0] == '/' on a NUL-terminated string: false for the empty string. */
  predicate StartsWithSlash(s: string)
  {
    |s| > 0 && s[0] == '/'
  }

  /** Key k has the same binding (or the same absence) in both maps. */
  predicate SameBinding(before: Env, after: Env, k: string)
  {
    (k in before <==> k in after) && (k in before ==> before[k] == after[k])
  }

  /**
   * What grub_snprintf(buf, size, "%s", s) leaves in buf: all of s when it
   * fits, otherwise its first size - 1 characters (one byte is kept for the
   * terminating NUL).
   */
  function Truncate(s: string, size: nat): (r: string)
    requires size > 0
    ensures |r| < size && r <= s
    ensures |s| < size ==> r == s
    ensures |s| >= size ==> |r| == size - 1
  {
    if |s| < size then s else s[..size - 1]
  }

  // ---------------------------------------------------------------- control

  /** The elements of a control array that are objects have a first member. */
  predicate ControlElementsOk(elems: seq<Node>)
  {
    forall i :: 0 <= i < |elems| && elems[i].kind == Object ==> |elems[i].children| > 0
  }

  /** What ventoy_plugin_control_entry demands of its node. */
  predicate ControlWellFormed(json: Node)
  {
    json.kind == Array ==> ControlElementsOk(json.children)
  }

  /**
   * The one variable assignment an element of a control array asks for:
   * its first member, when that is a String member with a value.
   */
  function ControlAssignment(e: Node): (r: Option<(string, string)>)
    requires e.kind == Object ==> |e.children| > 0
    ensures r.Some? ==> e.kind == Object && e.children[0].kind == String &&
                        e.children[0].name == Some(r.value.0) && e.children[0].str == Some(r.value.1)
    ensures r.None? ==> e.kind != Object || e.children[0].kind != String ||
                        e.children[0].name.None? || e.children[0].str.None?
  {
    if e.kind == Object && e.children[0].kind == String && e.children[0].name.Some? && e.children[0].str.Some?
    then Some((e.children[0].name.value, e.children[0].str.value))
    else None
  }

  /** Element e assigns variable k. */
  predicate Assigns(e: Node, k: string)
    requires e.kind == Object ==> |e.children| > 0
  {
    ControlAssignment(e).Some? && ControlAssignment(e).value.0 == k
  }

  /** The environment after element e of a control array. */
  function ControlStep(env: Env, e: Node): Env
    requires e.kind == Object ==> |e.children| > 0
  {
    match ControlAssignment(e)
    case Some((k, v)) => env[k := v]
    case None => env
  }

  /** The environment after the assignments of elems, in order. */
  function ControlEnv(env: Env, elems: seq<Node>): Env
    requires ControlElementsOk(elems)
    decreases |elems|
  {
    if elems == [] then env
    else ControlStep(ControlEnv(env, elems[..|elems| - 1]), elems[|elems| - 1])
  }

  /** ventoy_plugin_control_entry: only an array has an effect. */
  function ControlSection(env: Env, json: Node): (r: Env)
    requires ControlWellFormed(json)
    ensures json.kind != Array ==> r == env
  {
    if json.kind != Array then env else ControlEnv(env, json.children)
  }

  // ------------------------------------------------------------------ theme

  /** The `file` member of a theme node. */
  function ThemeFile(json: Node): Option<string>
  {
    GetStringEx(json.children, "file")
  }

  /** The `gfxmode` member of a theme node. */
  function ThemeGfxmode(json: Node): Option<string>
  {
    GetStringEx(json.children, "gfxmode")
  }

  /**
   * The path the theme handler builds for `file` in its 256-byte buffer:
   * below isodisk when file is absolute, below isodisk/ventoy/ otherwise.
   */
  function ThemePath(isodisk: string, file: string): (r: string)
    ensures |r| < THEME_PATH_SIZE
    ensures StartsWithSlash(file) ==> r <= isodisk + file
    ensures StartsWithSlash(file) && |isodisk + file| < THEME_PATH_SIZE ==> r == isodisk + file
    ensures !StartsWithSlash(file) ==> r <= isodisk + "/ventoy/" + file
    ensures StartsWithSlash(file) && |isodisk + file| >= THEME_PATH_SIZE ==> |r| == THEME_PATH_SIZE - 1
    ensures !StartsWithSlash(file) && |isodisk + "/ventoy/" + file| < THEME_PATH_SIZE ==>
              r == isodisk + "/ventoy/" + file
    ensures !StartsWithSlash(file) && |isodisk + "/ventoy/" + file| >= THEME_PATH_SIZE ==>
              |r| == THEME_PATH_SIZE - 1
  {
    if StartsWithSlash(file) then Truncate(isodisk + file, THEME_PATH_SIZE)
    else Truncate(isodisk + "/ventoy/" + file, THEME_PATH_SIZE)
  }

  /** The theme names a file that does not exist: the handler stops there. */
  predicate ThemeFileMissing(json: Node, isodisk: string, files: set<string>)
  {
    ThemeFile(json).Some? && ThemePath(isodisk, ThemeFile(json).value) !in files
  }

  /**
   * ventoy_plugin_theme_entry.  files is the set of paths for which
   * ventoy_is_file_exist holds.
   */
  function ThemeSection(env: Env, json: Node, isodisk: string, files: set<string>): (r: Env)
    // a file that is named but missing: nothing at all changes, not even vtoy_gfxmode
    ensures ThemeFileMissing(json, isodisk, files) ==> r == env
    // vtoy_theme is the resolved path exactly when the file is named and exists
    ensures !ThemeFileMissing(json, isodisk, files) && ThemeFile(json).Some? ==>
              "vtoy_theme" in r && r["vtoy_theme"] == ThemePath(isodisk, ThemeFile(json).value)
    ensures ThemeFile(json).None? ==> SameBinding(env, r, "vtoy_theme")
    // vtoy_gfxmode is copied whenever the handler gets that far
    ensures !ThemeFileMissing(json, isodisk, files) && ThemeGfxmode(json).Some? ==>
              "vtoy_gfxmode" in r && r["vtoy_gfxmode"] == ThemeGfxmode(json).value
    ensures ThemeGfxmode(json).None? ==> SameBinding(env, r, "vtoy_gfxmode")
    // no other variable is touched
    ensures forall k :: k != "vtoy_theme" && k != "vtoy_gfxmode" ==> SameBinding(env, r, k)
  {
    if ThemeFileMissing(json, isodisk, files) then env
    else
      var withTheme := match ThemeFile(json)
        case Some(file) => env["vtoy_theme" := ThemePath(isodisk, file)]
        case None => env;
      match ThemeGfxmode(json)
      case Some(mode) => withTheme["vtoy_gfxmode" := mode]
      case None => withTheme
  }

  // ----------------------------------------------------------- auto_install

  /** Both paths are absolute and fit their fields. */
  predicate WellFormedTemplate(t: InstallTemplate)
  {
    StartsWithSlash(t.isopath) && StartsWithSlash(t.templatepath) &&
    |t.isopath| < TEMPLATE_PATH_SIZE && |t.templatepath| < TEMPLATE_PATH_SIZE
  }

  /**
   * stored is what snprintf leaves of value in a TEMPLATE_PATH_SIZE field:
   * a prefix of it, all of it when it fits, its first 255 characters otherwise.
   */
  predicate IsFieldCopy(stored: string, value: string)
  {
    stored <= value &&
    (|value| < TEMPLATE_PATH_SIZE ==> stored == value) &&
    (|value| >= TEMPLATE_PATH_SIZE ==> |stored| == TEMPLATE_PATH_SIZE - 1)
  }

  /**
   * The registry entry an element of an auto_install array yields: its
   * `image` and `template` members, when both are present and absolute,
   * each cut to its field.
   */
  function TemplateEntry(e: Node): (r: Option<InstallTemplate>)
    ensures r.Some? ==> WellFormedTemplate(r.value)
    ensures r.Some? <==> GetStringEx(e.children, "image").Some? && StartsWithSlash(GetStringEx(e.children, "image").value) &&
                         GetStringEx(e.children, "template").Some? && StartsWithSlash(GetStringEx(e.children, "template").value)
    // each path is the member's value as snprintf leaves it in its field
    ensures r.Some? ==> IsFieldCopy(r.value.isopath, GetStringEx(e.children, "image").value)
    ensures r.Some? ==> IsFieldCopy(r.value.templatepath, GetStringEx(e.children, "template").value)
  {
    var iso := GetStringEx(e.children, "image");
    if iso.Some? && StartsWithSlash(iso.value) then
      var script := GetStringEx(e.children, "template");
      if script.Some? && StartsWithSlash(script.value) then
        Some(InstallTemplate(Truncate(iso.value, TEMPLATE_PATH_SIZE), Truncate(script.value, TEMPLATE_PATH_SIZE)))
      else None
    else None
  }

  /** Element e registers a template for image path p. */
  predicate RegistersImage(e: Node, p: string)
  {
    TemplateEntry(e).Some? && TemplateEntry(e).value.isopath == p
  }

  /** The list built from an empty one by prepending each accepted element of elems. */
  function Registered(elems: seq<Node>): seq<InstallTemplate>
    decreases |elems|
  {
    if elems == [] then []
    else Listed(TemplateEntry(elems[|elems| - 1])) + Registered(elems[..|elems| - 1])
  }

  /** ventoy_plugin_auto_install_entry: an array replaces the whole list. */
  function AutoInstallSection(reg: seq<InstallTemplate>, json: Node): (r: seq<InstallTemplate>)
    ensures json.kind != Array ==> r == reg
  {
    if json.kind != Array then reg else Registered(json.children)
  }

  // ----------------------------------------------------------------- lookup

  /** Entry i is the first one in reg whose image path is isopath. */
  predicate IsFirstMatch(reg: seq<InstallTemplate>, isopath: string, i: int)
  {
    0 <= i < |reg| && reg[i].isopath == isopath &&
    forall j :: 0 <= j < i ==> reg[j].isopath != isopath
  }

  /** ventoy_plugin_get_install_template: the template of the first entry for isopath. */
  function Lookup(reg: seq<InstallTemplate>, isopath: string): (r: Option<string>)
    ensures r.None? <==> forall i :: 0 <= i < |reg| ==> reg[i].isopath != isopath
    ensures r.Some? ==> exists i :: IsFirstMatch(reg, isopath, i) && reg[i].templatepath == r.value
  {
    if reg == [] then None
    else if reg[0].isopath == isopath then
      assert IsFirstMatch(reg, isopath, 0);
      Some(reg[0].templatepath)
    else
      var r := Lookup(reg[1..], isopath);
      assert forall i :: 0 < i < |reg| ==> reg[i] == reg[1..][i - 1];
      assert forall i :: IsFirstMatch(reg[1..], isopath, i) ==> IsFirstMatch(reg, isopath, i + 1);
      r
  }

  // --------------------------------------------------------------- dispatch

  /** The three handlers of g_plugin_entries. */
  datatype Section = Control | Theme | AutoInstall

  /** g_plugin_entries: section key and handler, in table order. */
  const PLUGIN_ENTRIES: seq<(string, Section)> :=
    [("control", Control), ("theme", Theme), ("auto_install", AutoInstall)]

  /** The handler of the first table entry whose key equals name; an unnamed node matches none. */
  function EntryIn(table: seq<(string, Section)>, name: Option<string>): (r: Option<Section>)
    ensures r.Some? ==> name.Some? && exists i :: 0 <= i < |table| && table[i] == (name.value, r.value) &&
                                                  forall j :: 0 <= j < i ==> table[j].0 != name.value
    ensures r.None? ==> name.None? || forall i :: 0 <= i < |table| ==> table[i].0 != name.value
  {
    if table == [] || name.None? then None
    else if table[0].0 == name.value then
      assert table[0] == (name.value, table[0].1);
      Some(table[0].1)
    else
      var r := EntryIn(table[1..], name);
      assert forall i :: 0 < i < |table| ==> table[i] == table[1..][i - 1];
      r
  }

  /** The handler ventoy_parse_plugin_config runs for a node called name. */
  function EntryFor(name: Option<string>): Option<Section>
  {
    EntryIn(PLUGIN_ENTRIES, name)
  }

  /** The state the handlers change. */
  datatype PluginState = PluginState(env: Env, templates: seq<InstallTemplate>)

  /** Every top-level node handed to the control handler satisfies its demand. */
  predicate ConfigWellFormed(nodes: seq<Node>)
  {
    forall i :: 0 <= i < |nodes| && EntryFor(nodes[i].name) == Some(Control) ==> ControlWellFormed(nodes[i])
  }

  /** The effect of one top-level node. */
  function ApplyNode(st: PluginState, node: Node, isodisk: string, files: set<string>): PluginState
    requires EntryFor(node.name) == Some(Control) ==> ControlWellFormed(node)
  {
    match EntryFor(node.name)
    case None => st
    case Some(Control) => st.(env := ControlSection(st.env, node))
    case Some(Theme) => st.(env := ThemeSection(st.env, node, isodisk, files))
    case Some(AutoInstall) => st.(templates := AutoInstallSection(st.templates, node))
  }

  /** ventoy_parse_plugin_config: every top-level node, in document order. */
  function Dispatch(st: PluginState, nodes: seq<Node>, isodisk: string, files: set<string>): PluginState
    requires ConfigWellFormed(nodes)
    decreases |nodes|
  {
    if nodes == [] then st
    else ApplyNode(Dispatch(st, nodes[..|nodes| - 1], isodisk, files), nodes[|nodes| - 1], isodisk, files)
  }
}

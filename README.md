# Ventoy plugin configuration loader, modelled in Dafny

Ventoy's GRUB module reads `<isodisk>/ventoy/ventoy.json` and hands each
top-level member of the parsed document to a handler chosen from a fixed
table (`g_plugin_entries`):

- `control`: an array of one-member objects; each sets one GRUB
  environment variable, taken from the first member of the object only.
- `theme`: an object with optional `file` and `gfxmode`. `file` is resolved
  below the boot disk (absolute) or below `<isodisk>/ventoy/` (relative)
  into a 256-byte buffer. If the file exists, `vtoy_theme` is set to that
  path. `gfxmode` is copied to `vtoy_gfxmode`.
- `auto_install`: an array of `{image, template}` objects. The global
  install-template list is freed, then rebuilt by prepending one node per
  element whose two paths both start with `/`.

`ventoy_plugin_get_install_template` later returns the template of the first
list node whose image path equals the query.

The model has six modules:

- `Wrappers` (wrappers.dfy): `Option`, which stands for a pointer that may be NULL.
- `VtoyJson` (vtoy_json.dfy): the parsed document. A node's child chain is a
  sequence. `GetStringEx` is the member lookup the handlers use.
- `PluginSpec` (plugin_spec.dfy): each handler, the dispatch loop and the
  lookup as functions from the state before to the state after. The state is
  the environment (a `map<string, string>`) and the template list (a
  `seq<InstallTemplate>`, head first).
- `VentoyPlugin` (plugin.dfy): the code as it runs. The class
  `PluginContext` has the environment and the list as fields. Its methods
  walk the sibling chains in loops and are proved to produce exactly what
  the `PluginSpec` functions describe.
- `PluginLemmas` (plugin_lemmas.dfy) and `PluginScenarios` (scenarios.dfy):
  the properties, and concrete documents.

One detail of the source that the model keeps: when `file` is named but
does not exist, the theme handler returns at once (ventoy_plugin.c:88-92),
so `vtoy_gfxmode` is not set either.

## Model

| member | source | states |
|---|---|---|
| VtoyJson.GetStringEx | GRUB2/MOD_SRC/grub-2.04/grub-core/ventoy/ventoy_plugin.c:138-141 | the member lookup the handlers use: None when no String member has that name; any value it returns is that of a String member with that name that no earlier sibling of the same name shadows |
| VtoyJson.GetStringExFindsFirst | GRUB2/MOD_SRC/grub-2.04/grub-core/ventoy/ventoy_plugin.c:138-141 | whenever a String member with that name is present, the lookup returns the value of the first such member |
| PluginSpec.Truncate | GRUB2/MOD_SRC/grub-2.04/grub-core/ventoy/ventoy_plugin.c:147-148 | snprintf into a buffer of `size` bytes keeps a prefix of the input shorter than `size`: the whole input when it fits, exactly size-1 characters otherwise |
| PluginSpec.ControlAssignment | GRUB2/MOD_SRC/grub-2.04/grub-core/ventoy/ventoy_plugin.c:58-64 | an array element asks for an assignment exactly when it is an object whose FIRST member is a String with a name and a value; the assignment is that name and value |
| PluginSpec.ControlSection | GRUB2/MOD_SRC/grub-2.04/grub-core/ventoy/ventoy_plugin.c:50-54 | a control section that is not an array leaves the environment unchanged |
| PluginSpec.ControlEnv | GRUB2/MOD_SRC/grub-2.04/grub-core/ventoy/ventoy_plugin.c:56-66 | no contract of its own: the environment after the control loop over the elements, one element after another. ControlLastWriterWins and ControlUntouchedKeys fix it variable by variable |
| PluginSpec.ThemePath | GRUB2/MOD_SRC/grub-2.04/grub-core/ventoy/ventoy_plugin.c:79-86 | the resolved theme path has at most 255 characters. It is a prefix of isodisk+file when file starts with `/`, else of isodisk+"/ventoy/"+file: all of that when it fits, exactly 255 characters of it otherwise |
| PluginSpec.ThemeSection | GRUB2/MOD_SRC/grub-2.04/grub-core/ventoy/ventoy_plugin.c:76-103 | a named but missing file leaves the environment unchanged, `vtoy_gfxmode` included. Otherwise `vtoy_theme` is the resolved path when `file` is given, and unchanged when absent. `vtoy_gfxmode` is `gfxmode` when given, and unchanged when absent. No other variable changes |
| PluginSpec.TemplateEntry | GRUB2/MOD_SRC/grub-2.04/grub-core/ventoy/ventoy_plugin.c:138-148 | an element yields an entry exactly when its `image` and `template` are both present and start with `/`; the entry's paths are those two values as snprintf leaves them in 256-byte fields (whole when they fit, their first 255 characters otherwise), so they start with `/` and fit |
| PluginSpec.Registered | GRUB2/MOD_SRC/grub-2.04/grub-core/ventoy/ventoy_plugin.c:136-159 | no contract of its own: the list the auto_install loop builds by prepending each accepted element's entry. RegisteredIsReversedAccepted, RegisteredMembers and RegisteredEmpty pin it down |
| PluginSpec.AutoInstallSection | GRUB2/MOD_SRC/grub-2.04/grub-core/ventoy/ventoy_plugin.c:119-123 | an auto_install section that is not an array leaves the list unchanged |
| PluginSpec.Lookup | GRUB2/MOD_SRC/grub-2.04/grub-core/ventoy/ventoy_plugin.c:264-277 | None exactly when no entry has that image path; otherwise the template of the first entry that has it |
| PluginSpec.EntryIn | GRUB2/MOD_SRC/grub-2.04/grub-core/ventoy/ventoy_plugin.c:179-187 | the handler found is that of the first table entry whose key equals the node's name; none when the node is unnamed or no key matches |
| PluginSpec.PLUGIN_ENTRIES | GRUB2/MOD_SRC/grub-2.04/grub-core/ventoy/ventoy_plugin.c:165-170 | a constant, no contract: the table g_plugin_entries, keys `control`, `theme` and `auto_install` in that order, each with its handler |
| PluginSpec.EntryFor | GRUB2/MOD_SRC/grub-2.04/grub-core/ventoy/ventoy_plugin.c:179-187 | no contract of its own: the handler the scan of PLUGIN_ENTRIES selects for a node's name. EntryForKeys states which names select which handler |
| VentoyPlugin.FindPluginEntry | GRUB2/MOD_SRC/grub-2.04/grub-core/ventoy/ventoy_plugin.c:179-187 | the table scan with early exit returns the first matching entry's handler, which is in the table under the node's name, and nothing when no key equals the name |
| PluginSpec.ApplyNode | GRUB2/MOD_SRC/grub-2.04/grub-core/ventoy/ventoy_plugin.c:179-190 | no contract of its own: one top-level node run through the handler EntryFor selects, or left without effect when none does |
| PluginSpec.Dispatch | GRUB2/MOD_SRC/grub-2.04/grub-core/ventoy/ventoy_plugin.c:172-193 | no contract of its own: the state after ventoy_parse_plugin_config walks the top-level nodes in order. DispatchAppend, DispatchSkipsUnknown, DispatchKeepsRegistry and DispatchRegistryFromLastAutoInstall pin it down |
| VentoyPlugin.PluginContext.constructor | GRUB2/MOD_SRC/grub-2.04/grub-core/ventoy/ventoy_plugin.c:41 | the template list starts empty; the environment is whatever GRUB has |
| VentoyPlugin.PluginContext.ControlEntry | GRUB2/MOD_SRC/grub-2.04/grub-core/ventoy/ventoy_plugin.c:43-69 | returns 0; the loop over the array leaves the environment ControlSection describes; the template list is untouched |
| VentoyPlugin.PluginContext.ThemeEntry | GRUB2/MOD_SRC/grub-2.04/grub-core/ventoy/ventoy_plugin.c:71-106 | returns 0; leaves the environment ThemeSection describes, early return included; the template list is untouched |
| VentoyPlugin.PluginContext.AutoInstallEntry | GRUB2/MOD_SRC/grub-2.04/grub-core/ventoy/ventoy_plugin.c:109-162 | returns 0; frees the old list and rebuilds it by prepending, leaving AutoInstallSection's list; every entry stays well formed; the environment is untouched |
| VentoyPlugin.PluginContext.ParsePluginConfig | GRUB2/MOD_SRC/grub-2.04/grub-core/ventoy/ventoy_plugin.c:172-193 | returns 0; walking the top-level nodes and running each one's handler leaves the state Dispatch describes |
| VentoyPlugin.PluginContext.LoadPlugin | GRUB2/MOD_SRC/grub-2.04/grub-core/ventoy/ventoy_plugin.c:195-247 | no config file: success, nothing changes. Buffer or document allocation failure, or a parse failure: error 1, nothing changes. A parsed document: success, its top-level members dispatched |
| VentoyPlugin.PluginContext.GetInstallTemplate | GRUB2/MOD_SRC/grub-2.04/grub-core/ventoy/ventoy_plugin.c:264-277 | the list walk returns the template of the first entry with an equal image path, and None exactly when no entry has that path |
| PluginLemmas.ControlEnvAppend | GRUB2/MOD_SRC/grub-2.04/grub-core/ventoy/ventoy_plugin.c:56-66 | processing the elements a+b equals processing a, then b on the resulting environment |
| PluginLemmas.ControlSkipsNonObjects | GRUB2/MOD_SRC/grub-2.04/grub-core/ventoy/ventoy_plugin.c:58 | an array element that is not an object has no effect: removing it gives the same environment |
| PluginLemmas.ControlFirstMemberOnly | GRUB2/MOD_SRC/grub-2.04/grub-core/ventoy/ventoy_plugin.c:60-64 | two object elements with the same first member have the same effect whatever their other members |
| PluginLemmas.ControlLastWriterWins | GRUB2/MOD_SRC/grub-2.04/grub-core/ventoy/ventoy_plugin.c:56-66 | a variable ends with the value of the last element that assigns it |
| PluginLemmas.ControlUntouchedKeys | GRUB2/MOD_SRC/grub-2.04/grub-core/ventoy/ventoy_plugin.c:61-64 | a variable no element assigns keeps its value, or stays unset |
| PluginLemmas.RegisteredIsReversedAccepted | GRUB2/MOD_SRC/grub-2.04/grub-core/ventoy/ventoy_plugin.c:136-159 | the rebuilt list is the reverse of the accepted elements' entries in array order |
| PluginLemmas.RegisteredMembers | GRUB2/MOD_SRC/grub-2.04/grub-core/ventoy/ventoy_plugin.c:139-155 | an entry is in the rebuilt list exactly when some array element yields it |
| PluginLemmas.RegisteredEmpty | GRUB2/MOD_SRC/grub-2.04/grub-core/ventoy/ventoy_plugin.c:125-159 | the rebuilt list is empty exactly when no element is accepted (an empty or all-invalid array) |
| PluginLemmas.RegisteredWellFormed | GRUB2/MOD_SRC/grub-2.04/grub-core/ventoy/ventoy_plugin.c:139-148 | every entry of a rebuilt list has two absolute paths that fit their fields |
| PluginLemmas.AutoInstallIdempotent | GRUB2/MOD_SRC/grub-2.04/grub-core/ventoy/ventoy_plugin.c:125-159 | handling the same auto_install node twice leaves the same list as handling it once |
| PluginLemmas.AutoInstallForgetsOldList | GRUB2/MOD_SRC/grub-2.04/grub-core/ventoy/ventoy_plugin.c:125-134 | for an array, the resulting list does not depend on the list before |
| PluginLemmas.LookupLastRegisteredWins | GRUB2/MOD_SRC/grub-2.04/grub-core/ventoy/ventoy_plugin.c:264-277 | after an auto_install array, looking an image up gives the template of the LAST element that registered that image |
| PluginLemmas.LookupUnregistered | GRUB2/MOD_SRC/grub-2.04/grub-core/ventoy/ventoy_plugin.c:268-276 | an image no element registered is not found |
| PluginLemmas.EntryForKeys | GRUB2/MOD_SRC/grub-2.04/grub-core/ventoy/ventoy_plugin.c:165-170 | `control`, `theme` and `auto_install` select their own handlers, and no other name selects any |
| PluginLemmas.DispatchAppend | GRUB2/MOD_SRC/grub-2.04/grub-core/ventoy/ventoy_plugin.c:177-190 | dispatching nodes a+b equals dispatching a, then b on the result |
| PluginLemmas.DispatchSkipsUnknown | GRUB2/MOD_SRC/grub-2.04/grub-core/ventoy/ventoy_plugin.c:177-190 | a node with an unknown name, or none, has no effect, and the nodes after it still run |
| PluginLemmas.DispatchKeepsRegistry | GRUB2/MOD_SRC/grub-2.04/grub-core/ventoy/ventoy_plugin.c:177-190 | a document with no auto_install array leaves the template list unchanged |
| PluginLemmas.DispatchRegistryFromLastAutoInstall | GRUB2/MOD_SRC/grub-2.04/grub-core/ventoy/ventoy_plugin.c:177-190 | after dispatch the list is exactly the one built from the last auto_install array |
| PluginScenarios.ControlScenario | GRUB2/MOD_SRC/grub-2.04/grub-core/ventoy/ventoy_plugin.c:56-66 | `{"control":[{"vtoy_test":"1"}]}` sets `vtoy_test` to `1` and leaves the list alone |
| PluginScenarios.ThemeScenario | GRUB2/MOD_SRC/grub-2.04/grub-core/ventoy/ventoy_plugin.c:76-103 | `{"theme":{"gfxmode":"1024x768"}}` sets `vtoy_gfxmode` and leaves `vtoy_theme` as it was |
| PluginScenarios.TwoTemplatesScenario | GRUB2/MOD_SRC/grub-2.04/grub-core/ventoy/ventoy_plugin.c:136-159 | after two templates, `/a.iso` and `/b.iso` find their own templates and `/c.iso` finds none |
| PluginScenarios.EmptyAutoInstallScenario | GRUB2/MOD_SRC/grub-2.04/grub-core/ventoy/ventoy_plugin.c:125-134 | `{"auto_install":[]}` empties the list |
| PluginScenarios.ReloadScenario | GRUB2/MOD_SRC/grub-2.04/grub-core/ventoy/ventoy_plugin.c:232-240 | a parse failure after a good load keeps the templates; a later empty auto_install drops them |

## Left out

- VentoyPlugin.PluginContext.ControlEntry: requires every object element of a control array to have a member. The source reads the first member without a NULL check (ventoy_plugin.c:60-61), so `[{}]` has no defined behaviour. The same demand is carried by PluginSpec.ControlSection, PluginSpec.Dispatch, VentoyPlugin.PluginContext.ParsePluginConfig and VentoyPlugin.PluginContext.LoadPlugin.
- VentoyPlugin.PluginContext.AutoInstallEntry: assumes `grub_zalloc` of a list node succeeds. In the source, a failed allocation silently skips that element (ventoy_plugin.c:144-145).
- The install-template field sizes: ventoy_def.h is not part of this model. The `isopath` and `templatepath` fields are taken to be 256 bytes (`TEMPLATE_PATH_SIZE`), like the theme buffer.
- File I/O in `ventoy_cmd_load_plugin`: opening, reading, buffer allocation and parsing are not modelled. Their outcome is an input (`LoadInput`). Releasing the buffer and the document, and the leaks on two error paths, are memory bookkeeping and are not modelled.
- A NULL name passed to `grub_strcmp` at ventoy_plugin.c:181 is not modelled: an unnamed top-level node matches no key (EntryFor gives none).
- The JSON parser and `vtoy_json_get_string_ex` are not part of this model. `GetStringEx` stands for the lookup, as a first-match search for a String member with that name.
- `ventoy_is_file_exist` is not part of this model. The existence check is membership of the resolved path in a set of existing files. Any format-string handling inside that function is not captured.
- `grub_env_set` / `ventoy_set_env`: a map update. GRUB's variable write hooks are not modelled.
- `ventoy_plugin_dump_auto_install` (ventoy_plugin.c:250-261): console output only. `debug` logging is also left out.
- The list is a sequence, not linked nodes. Node identity, and freeing node by node, are not modelled.
- Strings are character sequences without NUL bytes. Byte-level encoding is not modelled.

/**
 * Concrete configuration documents and what loading them does.
 */
module PluginScenarios {
  import opened Wrappers
  import opened VtoyJson
  import opened PluginSpec
  import opened PluginLemmas
  import opened VentoyPlugin

  /** A string member "name": "value". */
  function Member(name: string, value: string): Node
  {
    Node(String, Some(name), Some(value), [])
  }

  /** An object that is an array element. */
  function Element(members: seq<Node>): Node
  {
    Node(Object, None, None, members)
  }

  /** A top-level member holding an array. */
  function ArraySection(name: string, elems: seq<Node>): Node
  {
    Node(Array, Some(name), None, elems)
  }

  /** {"auto_install": [{"image": "/a.iso", "template": "/a.cfg"}, {"image": "/b.iso", "template": "/b.cfg"}]} */
  function TwoTemplates(): seq<Node>
  {
    [ArraySection("auto_install", [
      Element([Member("image", "/a.iso"), Member("template", "/a.cfg")]),
      Element([Member("image", "/b.iso"), Member("template", "/b.cfg")])])]
  }

  /** {"control": [{"vtoy_test": "1"}]} sets vtoy_test to "1". */
  lemma ControlScenario(st: PluginState)
    ensures ConfigWellFormed([ArraySection("control", [Element([Member("vtoy_test", "1")])])])
    ensures var after := Dispatch(st, [ArraySection("control", [Element([Member("vtoy_test", "1")])])], "", {});
            "vtoy_test" in after.env && after.env["vtoy_test"] == "1" && after.templates == st.templates
  {
    var section := ArraySection("control", [Element([Member("vtoy_test", "1")])]);
    EntryForKeys(section.name);
    assert [section][..0] == [];
    assert section.children[..0] == [];
  }

  /** {"theme": {"gfxmode": "1024x768"}} sets vtoy_gfxmode and leaves vtoy_theme as it was. */
  lemma ThemeScenario(st: PluginState, isodisk: string, files: set<string>)
    ensures ConfigWellFormed([Node(Object, Some("theme"), None, [Member("gfxmode", "1024x768")])])
    ensures var after := Dispatch(st, [Node(Object, Some("theme"), None, [Member("gfxmode", "1024x768")])], isodisk, files);
            "vtoy_gfxmode" in after.env && after.env["vtoy_gfxmode"] == "1024x768" &&
            SameBinding(st.env, after.env, "vtoy_theme")
  {
    var section := Node(Object, Some("theme"), None, [Member("gfxmode", "1024x768")]);
    EntryForKeys(section.name);
    assert [section][..0] == [];
    assert ThemeFile(section) == None by {
      assert !IsStringMember(section.children, 0, "file");
    }
    assert ThemeGfxmode(section) == Some("1024x768") by {
      assert IsStringMember(section.children, 0, "gfxmode");
    }
  }

  /** The two-template document: each image finds its own template, any other image none. */
  lemma TwoTemplatesScenario(st: PluginState, isodisk: string, files: set<string>)
    ensures ConfigWellFormed(TwoTemplates())
    ensures var reg := Dispatch(st, TwoTemplates(), isodisk, files).templates;
            Lookup(reg, "/a.iso") == Some("/a.cfg") && Lookup(reg, "/b.iso") == Some("/b.cfg") &&
            Lookup(reg, "/c.iso") == None
  {
    var section := TwoTemplates()[0];
    EntryForKeys(section.name);
    assert TwoTemplates()[..0] == [];
    var elems := section.children;
    assert TemplateEntry(elems[0]) == Some(InstallTemplate("/a.iso", "/a.cfg")) by {
      assert IsStringMember(elems[0].children, 0, "image");
      assert IsStringMember(elems[0].children, 1, "template");
    }
    assert TemplateEntry(elems[1]) == Some(InstallTemplate("/b.iso", "/b.cfg")) by {
      assert IsStringMember(elems[1].children, 0, "image");
      assert IsStringMember(elems[1].children, 1, "template");
    }
    assert Dispatch(st, TwoTemplates(), isodisk, files).templates == Registered(elems);
    LookupLastRegisteredWins(elems, "/a.iso", 0);
    LookupLastRegisteredWins(elems, "/b.iso", 1);
    LookupUnregistered(elems, "/c.iso");
  }

  /** {"auto_install": []} empties the list. */
  lemma EmptyAutoInstallScenario(st: PluginState, isodisk: string, files: set<string>)
    ensures ConfigWellFormed([ArraySection("auto_install", [])])
    ensures Dispatch(st, [ArraySection("auto_install", [])], isodisk, files).templates == []
  {
    EntryForKeys(Some("auto_install"));
    assert [ArraySection("auto_install", [])][..0] == [];
  }

  /**
   * Load the two-template document, then a document that fails to parse,
   * then {"auto_install": []}: the failed load keeps the templates, the
   * empty section drops them.
   */
  method ReloadScenario() returns (first: Option<string>, afterFailure: Option<string>, err: int,
                                   afterEmpty: Option<string>)
    ensures first == Some("/a.cfg") && afterFailure == Some("/a.cfg") && err == 1 && afterEmpty == None
  {
    var ctx := new PluginContext(map[]);
    TwoTemplatesScenario(ctx.State(), "(hd0,1)", {});
    var ignored := ctx.LoadPlugin(Parsed(Node(Object, None, None, TwoTemplates())), "(hd0,1)", {});
    first := ctx.GetInstallTemplate("/a.iso");
    err := ctx.LoadPlugin(ParseFailed, "(hd0,1)", {});
    afterFailure := ctx.GetInstallTemplate("/a.iso");
    EmptyAutoInstallScenario(ctx.State(), "(hd0,1)", {});
    ignored := ctx.LoadPlugin(Parsed(Node(Object, None, None, [ArraySection("auto_install", [])])), "(hd0,1)", {});
    afterEmpty := ctx.GetInstallTemplate("/a.iso");
  }
}

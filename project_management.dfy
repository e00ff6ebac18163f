/**
 * Project scaffolding: the requirements estimate, the rendering of a
 * template's directory tree, and the template check of `create_project`.
 */
module ProjectManagement {
  import opened Wrappers
  import opened Text

  // ---------------------------------------------------------------------
  // Requirements estimate
  // ---------------------------------------------------------------------

  datatype Estimate = Estimate(
    complexity: int,
    timeEstimate: string,
    teamSize: string,
    considerations: seq<string>)

  const BaseConsiderations: seq<string> := [
    "Ensure proper documentation",
    "Plan for scalability",
    "Consider security implications",
    "Include automated testing"
  ]

  const LargeProjectConsiderations: seq<string> := [
    "Consider microservices architecture",
    "Plan for load balancing",
    "Implement monitoring system"
  ]

  /** `min(len(words) // 20, 10)`: one point per twenty words, at most ten. */
  function RequirementsComplexity(requirements: string): (c: nat)
    ensures c <= 10
    ensures |Words(requirements)| >= 200 ==> c == 10
    ensures |Words(requirements)| < 200 ==> c * 20 <= |Words(requirements)| < c * 20 + 20
  {
    var byWords := |Words(requirements)| / 20;
    if byWords < 10 then byWords else 10
  }

  function Max(a: int, b: int): int
  {
    if a >= b then a else b
  }

  /**
   * The bounds of the recommended team size, `max(1, c // 3)` and
   * `max(2, c // 2)`: at least one developer, and a range that is never empty.
   */
  function TeamBounds(complexity: nat): (bounds: (int, int))
    ensures 1 <= bounds.0 <= bounds.1
    ensures bounds.1 >= 2
    ensures complexity <= 10 ==> bounds.1 <= 5
  {
    (Max(1, complexity / 3), Max(2, complexity / 2))
  }

  /** The considerations listed for a complexity score. */
  function Considerations(complexity: nat): (cs: seq<string>)
    ensures |BaseConsiderations| <= |cs| && cs[..|BaseConsiderations|] == BaseConsiderations
  {
    if complexity > 7 then BaseConsiderations + LargeProjectConsiderations else BaseConsiderations
  }

  /** `_analyze_requirements`. */
  function AnalyzeRequirements(requirements: string): (e: Estimate)
    ensures 0 <= e.complexity <= 10
    ensures e.complexity == RequirementsComplexity(requirements)
    ensures e.timeEstimate == NatToString(2 * e.complexity) + " weeks"
    ensures var (low, high) := TeamBounds(e.complexity);
      && 1 <= low <= high <= 5
      && e.teamSize == IntToString(low) + "-" + IntToString(high) + " developers"
    ensures e.considerations == Considerations(e.complexity)
  {
    var c := RequirementsComplexity(requirements);
    var (low, high) := TeamBounds(c);
    Estimate(
      c,
      NatToString(2 * c) + " weeks",
      IntToString(low) + "-" + IntToString(high) + " developers",
      Considerations(c))
  }

  /**
   * The three large-project considerations are added exactly when the
   * requirements have at least 160 words (a complexity of eight or more).
   */
  lemma LargeProjectIff(requirements: string)
    ensures var e := AnalyzeRequirements(requirements);
      (|Words(requirements)| >= 160 <==> e.considerations == BaseConsiderations + LargeProjectConsiderations)
      && (|Words(requirements)| < 160 <==> e.considerations == BaseConsiderations)
  {
    var e := AnalyzeRequirements(requirements);
    assert |BaseConsiderations + LargeProjectConsiderations| == 7;
  }

  /** The fields of the `estimate` embed, in order. */
  function EstimateFields(e: Estimate): (fields: seq<(string, string)>)
    requires 0 <= e.complexity
  {
    [ ("Complexity Score", NatToString(e.complexity) + "/10"),
      ("Estimated Time", e.timeEstimate),
      ("Team Size", e.teamSize),
      ("Key Considerations", Bullets(e.considerations)) ]
  }

  /** `"\n".join(f"• {c}" for c in items)`. */
  function Bullets(items: seq<string>): string
  {
    Join(seq(|items|, k requires 0 <= k < |items| => "\U{2022} " + items[k]), "\n")
  }

  // ---------------------------------------------------------------------
  // Directory trees
  // ---------------------------------------------------------------------

  /** An entry of a template's structure list: a dictionary of directories, or a file name. */
  datatype Item = File(name: string) | Dirs(entries: seq<Directory>)
  datatype Directory = Directory(dirname: string, contents: seq<Item>)

  /** `"└── "`. */
  const Branch: string := "\U{2514}\U{2500}\U{2500} "
  const Indent: string := "    "

  /** The lines `build_tree(items, prefix)` appends, in pre-order. */
  function RenderItems(items: seq<Item>, prefix: string): seq<string>
    decreases items
  {
    if items == [] then []
    else RenderItem(items[0], prefix) + RenderItems(items[1..], prefix)
  }

  function RenderItem(item: Item, prefix: string): seq<string>
    decreases item
  {
    match item
    case File(name) => [prefix + Branch + name]
    case Dirs(entries) => RenderDirectories(entries, prefix)
  }

  function RenderDirectories(entries: seq<Directory>, prefix: string): seq<string>
    decreases entries
  {
    if entries == [] then []
    else
      var d := entries[0];
      [prefix + Branch + d.dirname + "/"] + RenderItems(d.contents, prefix + Indent)
        + RenderDirectories(entries[1..], prefix)
  }

  /** The number of nodes (files and directories) of a structure. */
  function ItemsSize(items: seq<Item>): nat
    decreases items
  {
    if items == [] then 0 else ItemSize(items[0]) + ItemsSize(items[1..])
  }

  function ItemSize(item: Item): nat
    decreases item
  {
    match item
    case File(_) => 1
    case Dirs(entries) => DirectoriesSize(entries)
  }

  function DirectoriesSize(entries: seq<Directory>): nat
    decreases entries
  {
    if entries == [] then 0 else 1 + ItemsSize(entries[0].contents) + DirectoriesSize(entries[1..])
  }

  /**
   * One line per node, each starting with the prefix; the line of a node
   * comes before the lines of its children, which are indented four more
   * spaces.
   */
  lemma {:induction false} RenderItemsShape(items: seq<Item>, prefix: string)
    ensures |RenderItems(items, prefix)| == ItemsSize(items)
    ensures forall l :: l in RenderItems(items, prefix) ==> StartsWith(l, prefix)
    decreases items
  {
    if items != [] {
      RenderItemShape(items[0], prefix);
      RenderItemsShape(items[1..], prefix);
    }
  }

  lemma {:induction false} RenderItemShape(item: Item, prefix: string)
    ensures |RenderItem(item, prefix)| == ItemSize(item)
    ensures forall l :: l in RenderItem(item, prefix) ==> StartsWith(l, prefix)
    decreases item
  {
    match item
    case File(name) =>
      PrefixStartsWith(prefix, Branch + name);
    case Dirs(entries) => RenderDirectoriesShape(entries, prefix);
  }

  lemma {:induction false} RenderDirectoriesShape(entries: seq<Directory>, prefix: string)
    ensures |RenderDirectories(entries, prefix)| == DirectoriesSize(entries)
    ensures forall l :: l in RenderDirectories(entries, prefix) ==> StartsWith(l, prefix)
    decreases entries
  {
    if entries != [] {
      var d := entries[0];
      PrefixStartsWith(prefix, Branch + d.dirname + "/");
      RenderItemsShape(d.contents, prefix + Indent);
      forall l | l in RenderItems(d.contents, prefix + Indent)
        ensures StartsWith(l, prefix)
      {
        LongerPrefix(l, prefix, Indent);
      }
      RenderDirectoriesShape(entries[1..], prefix);
    }
  }

  /** The rendering of a directory is its own line, then its contents one level deeper, then its siblings. */
  lemma RenderDirectoryLines(d: Directory, rest: seq<Directory>, prefix: string)
    ensures RenderDirectories([d] + rest, prefix)
      == [prefix + Branch + d.dirname + "/"] + RenderItems(d.contents, prefix + Indent) + RenderDirectories(rest, prefix)
  {
    assert ([d] + rest)[0] == d;
    assert ([d] + rest)[1..] == rest;
  }

  lemma PrefixStartsWith(prefix: string, rest: string)
    ensures StartsWith(prefix + rest, prefix)
  {
    assert (prefix + rest)[..|prefix|] == prefix;
  }

  lemma LongerPrefix(l: string, prefix: string, more: string)
    requires StartsWith(l, prefix + more)
    ensures StartsWith(l, prefix)
  {
    assert l[..|prefix|] == (prefix + more)[..|prefix|];
  }

  /** Collects the lines of `_generate_structure`, as the nested `build_tree` does. */
  class StructureBuilder {
    var structure: seq<string>

    constructor ()
      ensures structure == []
    {
      structure := [];
    }

    method Append(line: string)
      modifies this
      ensures structure == old(structure) + [line]
    {
      structure := structure + [line];
    }

    /** `build_tree(items, prefix)`. */
    method BuildTree(items: seq<Item>, prefix: string)
      modifies this
      ensures structure == old(structure) + RenderItems(items, prefix)
      decreases items, 1
    {
      var i := 0;
      while i < |items|
        invariant 0 <= i <= |items|
        invariant structure + RenderItems(items[i..], prefix) == old(structure) + RenderItems(items, prefix)
        decreases |items| - i
      {
        assert RenderItems(items[i..], prefix) == RenderItem(items[i], prefix) + RenderItems(items[i + 1..], prefix);
        match items[i] {
          case File(name) =>
            Append(prefix + Branch + name);
          case Dirs(entries) =>
            assert items[i] in items;
            BuildDirectories(entries, prefix);
        }
        i := i + 1;
      }
    }

    /** The `for dirname, contents in item.items()` loop of `build_tree`. */
    method BuildDirectories(entries: seq<Directory>, prefix: string)
      modifies this
      ensures structure == old(structure) + RenderDirectories(entries, prefix)
      decreases entries, 0
    {
      var j := 0;
      while j < |entries|
        invariant 0 <= j <= |entries|
        invariant structure + RenderDirectories(entries[j..], prefix) == old(structure) + RenderDirectories(entries, prefix)
        decreases |entries| - j
      {
        assert entries[j..] == [entries[j]] + entries[j + 1..];
        RenderDirectoryLines(entries[j], entries[j + 1..], prefix);
        var d := entries[j];
        assert d in entries;
        Append(prefix + Branch + d.dirname + "/");
        BuildTree(d.contents, prefix + Indent);
        j := j + 1;
      }
    }
  }

  /** The joined lines: the project name, then the tree indented by four spaces. */
  function StructureText(name: string, base: seq<Item>): string
  {
    Join([name + "/"] + RenderItems(base, Indent), "\n")
  }

  /** `_generate_structure`. */
  method GenerateStructure(name: string, base: seq<Item>) returns (text: string)
    ensures text == StructureText(name, base)
  {
    var builder := new StructureBuilder();
    builder.Append(name + "/");
    builder.BuildTree(base, Indent);
    text := Join(builder.structure, "\n");
  }

  /** The structure text has one line for the project and one per node, the first being `name/`. */
  lemma StructureTextLines(name: string, base: seq<Item>)
    ensures |[name + "/"] + RenderItems(base, Indent)| == 1 + ItemsSize(base)
    ensures StartsWith(StructureText(name, base), name + "/")
  {
    RenderItemsShape(base, Indent);
    var rest := RenderItems(base, Indent);
    if rest != [] {
      JoinCons(name + "/", rest, "\n");
      assert (name + "/" + "\n" + Join(rest, "\n"))[..|name + "/"|] == name + "/";
    } else {
      assert [name + "/"] + rest == [name + "/"];
    }
  }

  // ---------------------------------------------------------------------
  // create_project
  // ---------------------------------------------------------------------

  datatype Template = Template(name: string, structure: seq<Item>, setupInstructions: string)

  datatype ProjectReply =
    | InvalidTemplate(text: string)
    | ProjectEmbed(title: string, directoryStructure: string, setupInstructions: string)

  /** The template of that name, if any; the loaded dictionary has each name once. */
  function FindTemplate(templates: seq<Template>, name: string): (r: Option<Template>)
    ensures r.Some? ==> r.value in templates && r.value.name == name
    ensures r.None? ==> forall t :: t in templates ==> t.name != name
  {
    if templates == [] then None
    else if templates[0].name == name then Some(templates[0])
    else FindTemplate(templates[1..], name)
  }

  /** `"\n".join(f"• {t}" for t in self.templates.keys())`. */
  function TemplateList(templates: seq<Template>): string
  {
    Bullets(seq(|templates|, k requires 0 <= k < |templates| => templates[k].name))
  }

  /**
   * `create_project`: an unknown template gets the list of templates and no
   * structure; a known one gets its structure in a code block and its setup
   * instructions.
   */
  method CreateProject(templates: seq<Template>, name: string, template: string) returns (reply: ProjectReply)
    ensures (forall t :: t in templates ==> t.name != template) <==> reply.InvalidTemplate?
    ensures reply.InvalidTemplate? ==>
      reply.text == "Invalid template. Available templates:\n" + TemplateList(templates)
    ensures reply.ProjectEmbed? ==>
      exists t :: t in templates && t.name == template
        && reply == ProjectEmbed("Project Structure: " + name, "```\n" + StructureText(name, t.structure) + "\n```", t.setupInstructions)
  {
    var found := FindTemplate(templates, template);
    if found.None? {
      return InvalidTemplate("Invalid template. Available templates:\n" + TemplateList(templates));
    }
    var t := found.value;
    var structure := GenerateStructure(name, t.structure);
    reply := ProjectEmbed("Project Structure: " + name, "```\n" + structure + "\n```", t.setupInstructions);
  }
}

/** The string-building part of generate_readme: the three bullet lists that
    feed the prompts, the README template with the six generated section
    texts inserted, and the cut to the first 200 lines. */
module Readme {
  import opened Text

  /** One entry of an ordered manifest mapping: a dependency name and its
      version, or a script name and its command. */
  datatype Entry = Entry(name: string, value: string)

  /** The six texts returned by the text-generation service, one per section. */
  datatype Sections = Sections(
    about: string,
    technologies: string,
    features: string,
    fileStructure: string,
    gettingStarted: string,
    scripts: string)

  /** Line limit applied to the assembled document. */
  const MaxLines: nat := 200

  function DependencyLine(e: Entry): string {
    "- **" + e.name + "**: " + e.value
  }

  function FileLine(path: string): string {
    "- `" + path + "`"
  }

  function ScriptLine(e: Entry): string {
    "- **" + e.name + "**: `" + e.value + "`"
  }

  /** dependencies_list: one bullet per dependency, in manifest order, joined by "\n". */
  function RenderDependencies(deps: seq<Entry>): (r: string)
    ensures deps == [] ==> r == ""
  {
    JoinLines(seq(|deps|, i requires 0 <= i < |deps| => DependencyLine(deps[i])))
  }

  /** file_structure: one bullet per path, in list order, joined by "\n". */
  function RenderFiles(paths: seq<string>): (r: string)
    ensures paths == [] ==> r == ""
  {
    JoinLines(seq(|paths|, i requires 0 <= i < |paths| => FileLine(paths[i])))
  }

  /** scripts_list: one bullet per script, in manifest order, joined by "\n". */
  function RenderScripts(scripts: seq<Entry>): (r: string)
    ensures scripts == [] ==> r == ""
  {
    JoinLines(seq(|scripts|, i requires 0 <= i < |scripts| => ScriptLine(scripts[i])))
  }

  /** No field of any entry contains a line break. */
  predicate SingleLineEntries(entries: seq<Entry>) {
    forall i :: 0 <= i < |entries| ==> '\n' !in entries[i].name && '\n' !in entries[i].value
  }

  /** A bullet line has no line break when its parts have none, and is never empty. */
  lemma BulletLine(prefix: string, middle: string, suffix: string)
    requires |prefix| > 0
    requires '\n' !in prefix && '\n' !in middle && '\n' !in suffix
    ensures '\n' !in prefix + middle + suffix && prefix + middle + suffix != ""
  {
  }

  /** The rendered dependency list has exactly one line per dependency, in order. */
  lemma RenderDependenciesLines(deps: seq<Entry>)
    requires SingleLineEntries(deps)
    ensures !EndsWith(RenderDependencies(deps), "\n")
    ensures |SplitLines(RenderDependencies(deps))| == |deps|
    ensures forall i :: 0 <= i < |deps| ==>
      SplitLines(RenderDependencies(deps))[i] == "- **" + deps[i].name + "**: " + deps[i].value
  {
    var lines := seq(|deps|, i requires 0 <= i < |deps| => DependencyLine(deps[i]));
    forall i | 0 <= i < |deps| ensures '\n' !in lines[i] && lines[i] != "" {
      BulletLine("- **", deps[i].name, "**: ");
      BulletLine("- **" + deps[i].name + "**: ", deps[i].value, "");
      assert lines[i] == "- **" + deps[i].name + "**: " + deps[i].value + "";
    }
    SplitLinesJoin(lines);
  }

  /** The rendered file list has exactly one line per path, in order. */
  lemma RenderFilesLines(paths: seq<string>)
    requires forall i :: 0 <= i < |paths| ==> '\n' !in paths[i]
    ensures !EndsWith(RenderFiles(paths), "\n")
    ensures |SplitLines(RenderFiles(paths))| == |paths|
    ensures forall i :: 0 <= i < |paths| ==> SplitLines(RenderFiles(paths))[i] == "- `" + paths[i] + "`"
  {
    var lines := seq(|paths|, i requires 0 <= i < |paths| => FileLine(paths[i]));
    forall i | 0 <= i < |paths| ensures '\n' !in lines[i] && lines[i] != "" {
      BulletLine("- `", paths[i], "`");
    }
    SplitLinesJoin(lines);
  }

  /** The rendered script list has exactly one line per script, in order. */
  lemma RenderScriptsLines(scripts: seq<Entry>)
    requires SingleLineEntries(scripts)
    ensures !EndsWith(RenderScripts(scripts), "\n")
    ensures |SplitLines(RenderScripts(scripts))| == |scripts|
    ensures forall i :: 0 <= i < |scripts| ==>
      SplitLines(RenderScripts(scripts))[i] == "- **" + scripts[i].name + "**: `" + scripts[i].value + "`"
  {
    var lines := seq(|scripts|, i requires 0 <= i < |scripts| => ScriptLine(scripts[i]));
    forall i | 0 <= i < |scripts| ensures '\n' !in lines[i] && lines[i] != "" {
      BulletLine("- **", scripts[i].name, "**: `");
      BulletLine("- **" + scripts[i].name + "**: `", scripts[i].value, "`");
    }
    SplitLinesJoin(lines);
  }

  /** The title block: project name as heading, description below it. */
  function Preamble(projectName: string, description: string): string {
    "\n" + "<div align=\"center\">" + "\n"
    + "  <h1>" + projectName + "</h1>" + "\n"
    + "  <p>" + description + "</p>" + "\n"
    + "</div>" + "\n"
  }

  /** One section: a rule, the heading, then the generated body. */
  function Section(heading: string, body: string): string {
    "\n" + "---" + "\n" + "\n" + "# " + heading + "\n" + "\n" + body + "\n"
  }

  /** readme_content: the title block followed by the six sections in their fixed order. */
  function ReadmeContent(projectName: string, description: string, s: Sections): (r: string)
    ensures Preamble(projectName, description) <= r
    ensures |r| > 0 && r[|r| - 1] == '\n'
  {
    Preamble(projectName, description)
    + Section("About the Project", s.about)
    + Section("Technologies and Libraries", s.technologies)
    + Section("Key Features", s.features)
    + Section("File Structure", s.fileStructure)
    + Section("Getting Started", s.gettingStarted)
    + Section("Scripts and Commands", s.scripts)
  }

  /** generate_readme's result: the assembled document cut to its first MaxLines lines. */
  function GenerateReadme(projectName: string, description: string, s: Sections): (r: string)
    ensures |SplitLines(r)| <= MaxLines
    ensures r <= ReadmeContent(projectName, description, s)
    ensures SplitLines(r) <= SplitLines(ReadmeContent(projectName, description, s))
    ensures |SplitLines(ReadmeContent(projectName, description, s))| >= MaxLines ==>
      Split(r) == SplitLines(ReadmeContent(projectName, description, s))[..MaxLines]
    ensures |SplitLines(ReadmeContent(projectName, description, s))| <= MaxLines ==>
      r == DropFinalNewline(ReadmeContent(projectName, description, s))
  {
    var content := ReadmeContent(projectName, description, s);
    FirstLinesLines(content, MaxLines);
    FirstLinesPrefix(content, MaxLines);
    FirstLines(content, MaxLines)
  }

  /** The lines of the title block. */
  function PreambleLines(projectName: string, description: string): seq<string> {
    ["", "<div align=\"center\">"] + Split("  <h1>" + projectName + "</h1>")
    + Split("  <p>" + description + "</p>") + ["</div>"]
  }

  /** The lines of a section: blank, rule, blank, heading, blank, then the body's own lines. */
  function SectionLines(heading: string, body: string): seq<string> {
    ["", "---", "", "# " + heading, ""] + Split(body)
  }

  /** The centred `div` opening line is a single line. */
  lemma DivLine()
    ensures Split("<div align=\"center\">") == ["<div align=\"center\">"]
  {
    var div := "<div align=\"center\">";
    assert forall i | 0 <= i < |div| :: div[i] != '\n';
    SplitSingle(div);
  }

  /** The pieces of the title block around its two interpolated lines. The nesting
      `"" + "\n" + (… + "\n" + (…))` only lines the text up with SplitAppend's shape. */
  lemma PreamblePieces(h1: string, p: string)
    ensures Split("" + "\n" + ("<div align=\"center\">" + "\n" + (h1 + "\n" + (p + "\n" + "</div>"))))
         == [""] + (["<div align=\"center\">"] + (Split(h1) + (Split(p) + ["</div>"])))
  {
    var div := "<div align=\"center\">";
    var tail := p + "\n" + "</div>";
    var mid := h1 + "\n" + tail;
    SplitAppend(p, "</div>");
    SplitAppend(h1, tail);
    SplitAppend(div, mid);
    SplitAppend("", div + "\n" + mid);
    DivLine();
    SplitSingle("</div>");
    assert Split("") == [""];
  }

  /** The title block regrouped line by line, in the shape PreamblePieces takes. */
  lemma PreambleText(projectName: string, description: string)
    ensures Preamble(projectName, description)
         == "" + "\n" + ("<div align=\"center\">" + "\n" + (("  <h1>" + projectName + "</h1>") + "\n"
            + (("  <p>" + description + "</p>") + "\n" + "</div>"))) + "\n"
  {
  }

  /** The lines of the title block are PreambleLines. */
  lemma PreambleSplit(projectName: string, description: string)
    ensures SplitLines(Preamble(projectName, description)) == PreambleLines(projectName, description)
  {
    var h1 := "  <h1>" + projectName + "</h1>";
    var p := "  <p>" + description + "</p>";
    var t := "" + "\n" + ("<div align=\"center\">" + "\n" + (h1 + "\n" + (p + "\n" + "</div>")));
    PreambleText(projectName, description);
    assert (t + "\n")[..|t + "\n"| - 1] == t;
    PreamblePieces(h1, p);
  }

  /** The lines of one section are SectionLines; the nesting of `t` only lines the text up with SplitAppend's shape. */
  lemma SectionSplit(heading: string, body: string)
    requires '\n' !in heading
    ensures SplitLines(Section(heading, body)) == SectionLines(heading, body)
  {
    var h := "# " + heading;
    var t := "" + "\n" + ("---" + "\n" + ("" + "\n" + (h + "\n" + ("" + "\n" + body))));
    assert Section(heading, body) == t + "\n";
    assert (t + "\n")[..|t + "\n"| - 1] == t;
    SplitAppend("", body);
    SplitAppend(h, "" + "\n" + body);
    SplitAppend("", h + "\n" + ("" + "\n" + body));
    SplitAppend("---", "" + "\n" + (h + "\n" + ("" + "\n" + body)));
    SplitAppend("", "---" + "\n" + ("" + "\n" + (h + "\n" + ("" + "\n" + body))));
    SplitSingle("---");
    SplitSingle(h);
  }

  /** The document's lines: the title block, then each heading under its rule with its body's lines after it, in the fixed order. */
  lemma ReadmeContentLines(projectName: string, description: string, s: Sections)
    ensures SplitLines(ReadmeContent(projectName, description, s)) ==
      PreambleLines(projectName, description)
      + SectionLines("About the Project", s.about)
      + SectionLines("Technologies and Libraries", s.technologies)
      + SectionLines("Key Features", s.features)
      + SectionLines("File Structure", s.fileStructure)
      + SectionLines("Getting Started", s.gettingStarted)
      + SectionLines("Scripts and Commands", s.scripts)
  {
    var p := Preamble(projectName, description);
    var s1 := Section("About the Project", s.about);
    var s2 := Section("Technologies and Libraries", s.technologies);
    var s3 := Section("Key Features", s.features);
    var s4 := Section("File Structure", s.fileStructure);
    var s5 := Section("Getting Started", s.gettingStarted);
    var s6 := Section("Scripts and Commands", s.scripts);
    PreambleSplit(projectName, description);
    SectionSplit("About the Project", s.about);
    SectionSplit("Technologies and Libraries", s.technologies);
    SectionSplit("Key Features", s.features);
    SectionSplit("File Structure", s.fileStructure);
    SectionSplit("Getting Started", s.gettingStarted);
    SectionSplit("Scripts and Commands", s.scripts);
    SplitLinesAppend(p, s1);
    SplitLinesAppend(p + s1, s2);
    SplitLinesAppend(p + s1 + s2, s3);
    SplitLinesAppend(p + s1 + s2 + s3, s4);
    SplitLinesAppend(p + s1 + s2 + s3 + s4, s5);
    SplitLinesAppend(p + s1 + s2 + s3 + s4 + s5, s6);
  }

  /** When no input text spans several lines, the document has 41 lines, so nothing is cut:
      the result is the whole assembled content less its final newline. */
  lemma ShortDocumentIsNotCut(projectName: string, description: string, s: Sections)
    requires '\n' !in projectName && '\n' !in description
    requires '\n' !in s.about && '\n' !in s.technologies && '\n' !in s.features
    requires '\n' !in s.fileStructure && '\n' !in s.gettingStarted && '\n' !in s.scripts
    ensures |SplitLines(ReadmeContent(projectName, description, s))| == 41
    ensures GenerateReadme(projectName, description, s) == DropFinalNewline(ReadmeContent(projectName, description, s))
  {
    var content := ReadmeContent(projectName, description, s);
    ReadmeContentLines(projectName, description, s);
    BulletLine("  <h1>", projectName, "</h1>");
    BulletLine("  <p>", description, "</p>");
    SplitSingle("  <h1>" + projectName + "</h1>");
    SplitSingle("  <p>" + description + "</p>");
    SplitSingle(s.about);
    SplitSingle(s.technologies);
    SplitSingle(s.features);
    SplitSingle(s.fileStructure);
    SplitSingle(s.gettingStarted);
    SplitSingle(s.scripts);
    FirstLinesPrefix(content, MaxLines);
  }
}

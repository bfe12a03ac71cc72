/** Sections, subsections and subsubsections (src/sections.rs). The file
    declares its children as a placeholder type, so the section is generic
    in the type `C` of its children; the content tree instantiates it. */
module Sections {

  /** `rank` is private in the source: 0 section, 1 subsection, 2 subsubsection. */
  datatype Section<C> = Section(title: string, rank: nat, content: seq<C>)

  /** The only ranks a section is ever built with. */
  predicate Valid<C>(s: Section<C>) {
    s.rank <= 2
  }

  /** `Section::new`: asserts rank <= 2, starts with no content. */
  function New<C>(title: string, rank: nat): (s: Section<C>)
    requires rank <= 2
    ensures Valid(s)
    ensures s.title == title && s.rank == rank && s.content == []
  {
    Section(title, rank, [])
  }

  function NewSection<C>(title: string): (s: Section<C>)
    ensures Valid(s) && s.title == title && s.content == []
    ensures TypeOfSection(s) == "\\section"
  {
    New(title, 0)
  }

  function NewSubsection<C>(title: string): (s: Section<C>)
    ensures Valid(s) && s.title == title && s.content == []
    ensures TypeOfSection(s) == "\\subsection"
  {
    New(title, 1)
  }

  function NewSubsubsection<C>(title: string): (s: Section<C>)
    ensures Valid(s) && s.title == title && s.content == []
    ensures TypeOfSection(s) == "\\subsubsection"
  {
    New(title, 2)
  }

  /** `add_content`: one child more, at the end; title and rank kept. */
  function AddContent<C>(s: Section<C>, newContent: C): (r: Section<C>)
    ensures |r.content| == |s.content| + 1
    ensures r.content[..|s.content|] == s.content && r.content[|s.content|] == newContent
    ensures r.title == s.title && r.rank == s.rank
    ensures Valid(s) ==> Valid(r)
  {
    s.(content := s.content + [newContent])
  }

  /** `get_title`: the title the section holds now. */
  function GetTitle<C>(s: Section<C>): (title: string)
    ensures title == s.title
  {
    s.title
  }

  /** `change_title`: the new title is what `GetTitle` answers; rank and
      content kept. */
  function ChangeTitle<C>(s: Section<C>, newTitle: string): (r: Section<C>)
    ensures GetTitle(r) == newTitle
    ensures r.rank == s.rank && r.content == s.content
    ensures Valid(s) ==> Valid(r)
  {
    s.(title := newTitle)
  }

  /** The sectioning command of the rank; other ranks panic in the source. */
  function TypeOfSection<C>(s: Section<C>): (name: string)
    requires Valid(s)
    ensures s.rank == 0 <==> name == "\\section"
    ensures s.rank == 1 <==> name == "\\subsection"
    ensures s.rank == 2 <==> name == "\\subsubsection"
  {
    match s.rank
    case 0 => "\\section"
    case 1 => "\\subsection"
    case 2 => "\\subsubsection"
  }

  /** What a section writes: its command and its title in braces, then a
      newline. The children are not written. */
  function Header<C>(s: Section<C>): (r: string)
    requires Valid(s)
    ensures |r| == |TypeOfSection(s)| + |s.title| + 3
    ensures r[..|TypeOfSection(s)|] == TypeOfSection(s)
    ensures r[|TypeOfSection(s)|..|TypeOfSection(s)| + 1] == "{"
    ensures r[|TypeOfSection(s)| + 1..|r| - 2] == s.title
    ensures r[|r| - 2..] == "}\n"
  {
    TypeOfSection(s) + "{" + s.title + "}\n"
  }

  /** One of the two updates the source offers on a section. */
  datatype Edit<C> = Rename(newTitle: string) | Append(child: C)

  function Apply<C>(s: Section<C>, e: Edit<C>): Section<C> {
    match e
    case Rename(t) => ChangeTitle(s, t)
    case Append(c) => AddContent(s, c)
  }

  /** The edits applied one after the other, in order. */
  function ApplyAll<C>(s: Section<C>, edits: seq<Edit<C>>): Section<C>
    decreases |edits|
  {
    if edits == [] then s else ApplyAll(Apply(s, edits[0]), edits[1..])
  }

  /** The children the edits append, in order. */
  function Appended<C>(edits: seq<Edit<C>>): seq<C>
    decreases |edits|
  {
    if edits == [] then []
    else (if edits[0].Append? then [edits[0].child] else []) + Appended(edits[1..])
  }

  /** The title after the edits: the last rename, or the old title if none. */
  function FinalTitle<C>(title: string, edits: seq<Edit<C>>): string
    decreases |edits|
  {
    if edits == [] then title
    else FinalTitle(if edits[0].Rename? then edits[0].newTitle else title, edits[1..])
  }

  /** No operation changes the rank: after any interleaving of renames and
      appends the rank is the one the section was built with, the children
      are the old ones followed by the appended ones in order, and the title
      is the last one given. */
  lemma {:induction false} RankIsFixed<C>(s: Section<C>, edits: seq<Edit<C>>)
    requires Valid(s)
    ensures var r := ApplyAll(s, edits);
      && r.rank == s.rank && Valid(r)
      && r.content == s.content + Appended(edits)
      && r.title == FinalTitle(s.title, edits)
    decreases |edits|
  {
    if edits != [] {
      var next := Apply(s, edits[0]);
      RankIsFixed(next, edits[1..]);
      assert next.content == s.content + (if edits[0].Append? then [edits[0].child] else []);
    }
  }

  /** The tests: renaming a new section "Section" to "NewSection" is seen by
      `GetTitle`, and a new section "Intro" writes `\\section{Intro}` and a
      newline. */
  lemma SectionScenario<C>()
    ensures GetTitle(ChangeTitle(NewSection<C>("Section"), "NewSection")) == "NewSection"
    ensures Header(NewSection<C>("Intro")) == "\\section{Intro}\n"
  {
  }
}

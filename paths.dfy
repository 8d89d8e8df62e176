/**
 * The part of Python's `pathlib` (POSIX flavour) the core uses: joining with `/`,
 * `name`, `suffix`, `stem`, `parent`, `relative_to` and `str()`.
 */
module Paths {
  import opened Wrappers
  import opened Strings

  /** A path: whether it starts at `/`, and its components (never "" nor "."). */
  datatype Path = Path(absolute: bool, parts: seq<string>)

  /** `p / name` for a single component name without '/': an empty name leaves `p` as it is. */
  function Child(p: Path, name: string): (r: Path)
    ensures r.absolute == p.absolute
    ensures name == "" ==> r == p
    ensures name != "" ==> r.parts == p.parts + [name]
  {
    if name == "" then p else Path(p.absolute, p.parts + [name])
  }

  /** Two non-empty names joined to the same directory give the same path only if they are equal. */
  lemma ChildInjective(p: Path, a: string, b: string)
    requires a != "" && b != "" && Child(p, a) == Child(p, b)
    ensures a == b
  {
    assert a == (p.parts + [a])[|p.parts|];
  }

  /** `a / b`: an absolute right-hand side replaces the left-hand side altogether. */
  function JoinPath(a: Path, b: Path): (r: Path)
    ensures b.absolute ==> r == b
    ensures !b.absolute ==> r == Path(a.absolute, a.parts + b.parts)
  {
    if b.absolute then b else Path(a.absolute, a.parts + b.parts)
  }

  /** `p.name`: the last component, or "" for `/` and `.`. */
  function Name(p: Path): string {
    if p.parts == [] then "" else p.parts[|p.parts| - 1]
  }

  /** `p.parent`: `/` and `.` are their own parents. */
  function Parent(p: Path): (r: Path)
    ensures r.absolute == p.absolute
    ensures p.parts != [] ==> r.parts + [Name(p)] == p.parts
    ensures p.parts == [] ==> r == p
  {
    if p.parts == [] then p else Path(p.absolute, p.parts[..|p.parts| - 1])
  }

  /** `p.relative_to(root)`, or None where Python raises ValueError. */
  function RelativeTo(p: Path, root: Path): (r: Option<Path>)
    ensures r.Some? <==> p.absolute == root.absolute && root.parts <= p.parts
    ensures r.Some? ==> !r.value.absolute && root.parts + r.value.parts == p.parts
  {
    if p.absolute == root.absolute && root.parts <= p.parts
    then Some(Path(false, p.parts[|root.parts|..]))
    else None
  }

  /** `str(p)` */
  function ToString(p: Path): string {
    if p.absolute then "/" + Join("/", p.parts)
    else if p.parts == [] then "."
    else Join("/", p.parts)
  }

  /** Position of the dot that starts the suffix of a file name, if there is one. */
  function SuffixDot(name: string): (i: Option<nat>)
    ensures i.Some? ==> 0 < i.value < |name| - 1 && name[i.value] == '.'
    ensures i.Some? ==> forall j :: i.value < j < |name| ==> name[j] != '.'
  {
    var i := RFind(name, '.');
    if 0 < i < |name| - 1 then Some(i) else None
  }

  /** `PurePath(name).suffix`: from the last dot, unless that dot is first or last. */
  function Suffix(name: string): string {
    match SuffixDot(name)
    case Some(i) => name[i..]
    case None => ""
  }

  /** `PurePath(name).stem`: the name without its suffix. */
  function Stem(name: string): string {
    match SuffixDot(name)
    case Some(i) => name[..i]
    case None => name
  }

  lemma StemSuffix(name: string)
    ensures Stem(name) + Suffix(name) == name
  {
  }

  /**
   * Only the text after the last dot counts: a non-empty stem followed by `.ext`
   * (ext non-empty and dot-free) has exactly `.ext` as its suffix and keeps the rest as stem.
   */
  lemma {:induction false} SuffixOfAppended(stem: string, ext: string)
    requires stem != [] && ext != []
    requires forall j :: 0 <= j < |ext| ==> ext[j] != '.'
    ensures Suffix(stem + "." + ext) == "." + ext
    ensures Stem(stem + "." + ext) == stem
  {
    var name := stem + "." + ext;
    assert name[|stem|] == '.';
    assert forall j :: |stem| < j < |name| ==> name[j] == ext[j - |stem| - 1];
    var i := RFind(name, '.');
    assert i == |stem|;
  }

  /** A name whose only dot is its first character (a hidden file such as ".pdf") has no suffix. */
  lemma HiddenNameHasNoSuffix(name: string)
    requires name != [] && name[0] == '.'
    requires forall j :: 0 < j < |name| ==> name[j] != '.'
    ensures Suffix(name) == "" && Stem(name) == name
  {
  }

  /** Components of a path string, as `PurePosixPath(s)` parses them. */
  function StringParts(s: string): (r: seq<string>)
    ensures forall k :: 0 <= k < |r| ==> r[k] != "" && r[k] != "."
  {
    Proper(Split(s, '/'))
  }

  function Proper(pieces: seq<string>): (r: seq<string>)
    ensures forall k :: 0 <= k < |r| ==> r[k] != "" && r[k] != "."
  {
    if pieces == [] then []
    else if pieces[0] == "" || pieces[0] == "." then Proper(pieces[1..])
    else [pieces[0]] + Proper(pieces[1..])
  }

  /** `PurePosixPath(s).name` */
  function NameOfString(s: string): string {
    var parts := StringParts(s);
    if parts == [] then "" else parts[|parts| - 1]
  }
}

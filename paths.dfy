/**
 * The path logic of `updateDir` (source/main.c:75-112): the root
 * initialisation, the `".."` branch that cuts the current path after the
 * separator before its trailing one, and the descend branch that appends a
 * name and a separator.
 */
module Paths {
  import opened Options

  /** The storage root the browser starts in. */
  const Root: string := "sdmc:/"

  /** Every path the browser holds starts at the root and ends in a separator. */
  predicate ValidPath(p: string) {
    |Root| <= |p| && p[..|Root|] == Root && p[|p| - 1] == '/'
  }

  /** The descend branch: `curDir`, then the entry name, then a separator. */
  function Join(dir: string, name: string): (r: string)
    ensures |dir| < |r| && dir <= r && r[|r| - 1] == '/'
    ensures ValidPath(dir) ==> ValidPath(r)
  {
    dir + name + "/"
  }

  /**
   * The backward scan of the `".."` branch from index `i`: the largest index
   * in `1..i` holding a separator, or 0 when there is none (index 0 is never
   * inspected).
   */
  function LastSlash(p: string, i: nat): (k: nat)
    requires i < |p|
    ensures k <= i
    ensures k > 0 ==> p[k] == '/'
    ensures forall j :: k < j <= i ==> p[j] != '/'
  {
    if i == 0 || p[i] == '/' then i else LastSlash(p, i - 1)
  }

  /**
   * The `".."` branch: the root is left alone; otherwise the path is cut just
   * after the last separator that precedes its final character, and left
   * whole when there is none.
   */
  function Parent(p: string): (r: string)
    requires p == Root || 2 <= |p|
    ensures r <= p
    ensures p == Root ==> r == p
    ensures p != Root && r != p ==>
      2 <= |r| && r[|r| - 1] == '/' && forall j :: |r| <= j < |p| - 1 ==> p[j] != '/'
    ensures p != Root && r == p ==> forall j :: 0 < j < |p| - 1 ==> p[j] != '/'
  {
    if p == Root then p
    else
      var k := LastSlash(p, |p| - 2);
      if k == 0 then p else p[..k + 1]
  }

  /**
   * The path `updateDir(newDir)` leaves in `curDir`: `".."` goes to the
   * parent, `"."` keeps the path, the root is installed when there is no path
   * yet, and any other name is appended. The source calls `strlen` and
   * `strcmp` on `curDir`, so only the root may be opened without a path.
   */
  function NextDir(cur: Option<string>, newDir: string): (r: Option<string>)
    requires cur.None? ==> newDir == Root
    requires cur.Some? ==> 2 <= |cur.value|
    ensures r.Some?
    ensures newDir == "." ==> r == cur
    ensures newDir == ".." && cur == Some(Root) ==> r == cur
  {
    if newDir == ".." then
      if cur.value == Root then cur else Some(Parent(cur.value))
    else if newDir == "." then
      cur
    else if cur.None? && newDir == Root then
      Some(Root)
    else
      Some(Join(cur.value, newDir))
  }

  /** Going to the parent keeps a path valid: the cut never reaches into the root. */
  lemma ParentValid(p: string)
    requires ValidPath(p)
    ensures ValidPath(Parent(p))
  {
  }

  /** Every path `updateDir` installs is valid. */
  lemma NextDirValid(cur: Option<string>, newDir: string)
    requires cur.None? ==> newDir == Root
    requires cur.Some? ==> ValidPath(cur.value)
    ensures ValidPath(NextDir(cur, newDir).value)
  {
  }

  /**
   * Going to the parent of a child path gives back the path: for a path that
   * ends in a separator and a non-empty name without separators,
   * `Parent(Join(p, name)) == p`.
   */
  lemma ParentOfJoin(p: string, name: string)
    requires 2 <= |p| && p[|p| - 1] == '/'
    requires |name| > 0 && '/' !in name
    ensures Parent(Join(p, name)) == p
  {
  }

  /** Descending into a child and pressing back restores the path string. */
  lemma DescendThenBack(p: string, name: string)
    requires ValidPath(p)
    requires |name| > 0 && '/' !in name && name != "." && name != ".."
    ensures NextDir(NextDir(Some(p), name), "..") == Some(p)
  {
    ParentOfJoin(p, name);
  }
}

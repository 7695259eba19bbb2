/**
 * The browser's globals and the functions of source/main.c that update them
 * in place: `curDir`, `numFilesInDir`, `selLine`, `scrollLine` and the slot
 * table `curDirFiles` become the fields of one `Browser` object.
 *
 * The filesystem is a parameter: each `opendir`/`readdir` pass of
 * `updateDir` is given as the sequence of entries it enumerates, and the two
 * passes may differ.
 */
module FileBrowser {
  import opened Options
  import opened Cursor
  import opened View
  import opened Paths
  import opened Cache
  import opened Input

  /** What the first `opendir` of `updateDir` yields. */
  datatype Listing = OpenFailed | Opened(entries: seq<Entry>)

  /**
   * How a frame of `mainLoop` ends: `Exit` is its return value 0, `Continue`
   * its return value 1. `EmptySlot` marks the frame where the source would
   * read the type of an empty slot through a null pointer; the model changes
   * nothing there.
   */
  datatype Frame = Exit | Continue | EmptySlot

  /** Everything a command can change, for stating what it leaves alone. */
  datatype Snapshot = Snapshot(
    dir: Option<string>, count: nat, cursor: Pos, hasTable: bool, slots: seq<Option<Entry>>)

  /** Whether `updateDir(newDir)` goes on to reload: only `".."` at the root returns first. */
  predicate Reloads(cur: Option<string>, newDir: string) {
    !(newDir == ".." && cur == Some(Root))
  }

  /**
   * The state `updateDir(newDir)` leaves: `".."` at the root changes nothing;
   * otherwise the path becomes `NextDir`, and when the first `opendir`
   * succeeds the table holds the second pass in slots sized by the first and
   * the cursor is back at the top.
   */
  function DirChanged(s: Snapshot, newDir: string, first: Listing, second: seq<Entry>): Snapshot
    requires s.dir.None? ==> newDir == Root
    requires s.dir.Some? ==> 2 <= |s.dir.value|
  {
    if !Reloads(s.dir, newDir) then s
    else
      var dir := NextDir(s.dir, newDir);
      match first
      case OpenFailed => s.(dir := dir)
      case Opened(entries) => Snapshot(dir, |entries|, Pos(0, 0), true, Loaded(|entries|, second))
  }

  class Browser {
    var curDir: Option<string>
    var numFilesInDir: nat
    var selLine: nat
    var scrollLine: nat
    var curDirFiles: array?<Option<Entry>>

    /** The invariant every command keeps. */
    ghost predicate Valid()
      reads this
    {
      && (curDir.Some? ==> ValidPath(curDir.value))
      && (curDirFiles != null ==> curDirFiles.Length == numFilesInDir)
      && (curDirFiles == null ==> numFilesInDir == 0)
      && InWindow(Pos(selLine, scrollLine), numFilesInDir)
    }

    /** The contents of the slot table (none when there is no table). */
    ghost function Slots(): seq<Option<Entry>>
      reads this, curDirFiles
    {
      if curDirFiles == null then [] else curDirFiles[..]
    }

    /** The selection points at a filled slot whose type has the directory bit. */
    ghost predicate SelectsDirectory()
      reads this, curDirFiles
    {
      selLine < |Slots()| && Slots()[selLine].Some? && HasDirBit(Slots()[selLine].value.dType)
    }

    ghost function State(): Snapshot
      reads this, curDirFiles
    {
      Snapshot(curDir, numFilesInDir, Pos(selLine, scrollLine), curDirFiles != null, Slots())
    }

    /** `appInit`: start with no path and no table, then open the root. */
    constructor (root: Listing, rootFill: seq<Entry>)
      ensures Valid()
      ensures curDir == Some(Root)
      ensures root.OpenFailed? ==> curDirFiles == null && numFilesInDir == 0
      ensures root.Opened? ==>
        && numFilesInDir == |root.entries|
        && curDirFiles != null
        && curDirFiles[..] == Loaded(|root.entries|, rootFill)
        && selLine == 0 && scrollLine == 0
    {
      curDir := None;
      numFilesInDir := 0;
      selLine := 0;
      scrollLine := 0;
      curDirFiles := null;
      new;
      UpdateDir(Root, root, rootFill);
    }

    /**
     * `updateDir(newDir)`: compute the new path, then list it with a counting
     * pass, a fresh table of that many slots, a filling pass, and a cursor
     * reset. When `opendir` fails the new path stays but the table and the
     * cursor are left as they were.
     */
    method UpdateDir(newDir: string, first: Listing, second: seq<Entry>)
      requires Valid()
      requires curDir.None? ==> newDir == Root
      modifies this
      ensures Valid()
      ensures curDir == NextDir(old(curDir), newDir)
      ensures State() == DirChanged(old(State()), newDir, first, second)
      ensures Reloads(old(curDir), newDir) && first.OpenFailed? ==> curDirFiles == old(curDirFiles)
      ensures Reloads(old(curDir), newDir) && first.Opened? ==> fresh(curDirFiles)
    {
      NextDirValid(curDir, newDir);
      if newDir == ".." {
        if curDir.value == Root {
          return;
        }
        CutToParent();
      } else if newDir == "." {
      } else if curDir.None? && newDir == Root {
        curDir := Some(Root);
      } else {
        curDir := Some(Join(curDir.value, newDir));
      }
      match first
      case OpenFailed =>
      case Opened(entries) =>
        Reload(entries, second);
    }

    /** The `".."` branch: scan back from the next-to-last character and cut after the separator found. */
    method CutToParent()
      requires curDir.Some? && curDir.value != Root && 2 <= |curDir.value|
      modifies this`curDir
      ensures curDir == Some(Parent(old(curDir.value)))
    {
      var dir := curDir.value;
      var rIndex := |dir| - 2;
      while rIndex > 0
        invariant 0 <= rIndex <= |dir| - 2
        invariant curDir == Some(dir)
        invariant forall j :: rIndex < j <= |dir| - 2 ==> dir[j] != '/'
      {
        if dir[rIndex] == '/' {
          curDir := Some(dir[..rIndex + 1]);
          break;
        }
        rIndex := rIndex - 1;
      }
      assert LastSlash(dir, |dir| - 2) == rIndex;
    }

    /**
     * The listing part of `updateDir` once `opendir` succeeded: count the
     * entries of the first pass, allocate that many empty slots, add the
     * entries of the second pass one by one, and reset the cursor.
     */
    method Reload(entries: seq<Entry>, second: seq<Entry>)
      modifies this`numFilesInDir, this`curDirFiles, this`selLine, this`scrollLine
      ensures numFilesInDir == |entries|
      ensures curDirFiles != null && fresh(curDirFiles) && curDirFiles.Length == |entries|
      ensures curDirFiles[..] == Loaded(|entries|, second)
      ensures selLine == 0 && scrollLine == 0
    {
      var numFiles := 0;
      while numFiles < |entries|
        invariant numFiles <= |entries|
      {
        numFiles := numFiles + 1;
      }
      AllocCurDirFiles(numFiles);
      assert curDirFiles[..] == Loaded(numFiles, second[..0]);
      var dirlistIndex := 0;
      while dirlistIndex < |second|
        invariant dirlistIndex <= |second|
        invariant curDirFiles != null && fresh(curDirFiles)
        invariant numFilesInDir == numFiles && curDirFiles.Length == numFiles
        invariant curDirFiles[..] == Loaded(numFiles, second[..dirlistIndex])
      {
        AddedLoaded(numFiles, second[..dirlistIndex], second[dirlistIndex]);
        assert second[..dirlistIndex] + [second[dirlistIndex]] == second[..dirlistIndex + 1];
        var _ := AddCurDirFile(second[dirlistIndex]);
        dirlistIndex := dirlistIndex + 1;
      }
      assert second[..dirlistIndex] == second;
      selLine := 0;
      scrollLine := 0;
    }

    /** `updateCur(input)`: one step of the cursor state machine. */
    method UpdateCur(m: Move)
      requires Valid()
      modifies this`selLine, this`scrollLine
      ensures Valid()
      ensures Pos(selLine, scrollLine) == Step(m, old(Pos(selLine, scrollLine)), numFilesInDir)
    {
      if m == Up {
        if selLine != 0 {
          if scrollLine != 0 && selLine == scrollLine {
            scrollLine := scrollLine - 1;
          }
          selLine := selLine - 1;
        }
      } else {
        if selLine < numFilesInDir - 1 {
          selLine := selLine + 1;
          if scrollLine < numFilesInDir - LineLimit && selLine == scrollLine + LineLimit {
            scrollLine := scrollLine + 1;
          }
        }
      }
    }

    /**
     * The row selection of `updateView`: walk every entry index, keep those
     * inside the window, then pad with blank rows up to `LineLimit`.
     */
    method UpdateView() returns (rows: seq<Row>)
      ensures rows == Rows(numFilesInDir, Pos(selLine, scrollLine))
    {
      rows := [];
      var renderIndex := 0;
      var fileIndex := 0;
      while fileIndex < numFilesInDir
        invariant fileIndex <= numFilesInDir
        invariant renderIndex == |rows| == ShownCount(fileIndex, scrollLine)
        invariant forall j :: 0 <= j < |rows| ==> rows[j] == Line(scrollLine + j, scrollLine + j == selLine)
      {
        if fileIndex >= scrollLine && fileIndex <= scrollLine + LineLimit - 1 {
          rows := rows + [Line(fileIndex, selLine == fileIndex)];
          renderIndex := renderIndex + 1;
        }
        fileIndex := fileIndex + 1;
      }
      ghost var shown := renderIndex;
      while renderIndex < LineLimit
        invariant shown <= renderIndex <= LineLimit
        invariant renderIndex == |rows|
        invariant forall j :: 0 <= j < shown ==> rows[j] == Line(scrollLine + j, scrollLine + j == selLine)
        invariant forall j :: shown <= j < |rows| ==> rows[j] == Blank
      {
        rows := rows + [Blank];
        renderIndex := renderIndex + 1;
      }
      ghost var expected := Rows(numFilesInDir, Pos(selLine, scrollLine));
      assert forall i :: 0 <= i < LineLimit ==> rows[i] == expected[i];
    }

    /** `allocCurDirFiles(n)`: drop any previous table and install `n` empty slots. */
    method AllocCurDirFiles(numFiles: nat)
      modifies this`numFilesInDir, this`curDirFiles
      ensures numFilesInDir == numFiles
      ensures curDirFiles != null && fresh(curDirFiles) && curDirFiles.Length == numFiles
      ensures forall i :: 0 <= i < numFiles ==> curDirFiles[i] == None
    {
      if curDirFiles != null {
        FreeCurDirFiles();
      }
      numFilesInDir := numFiles;
      curDirFiles := new Option<Entry>[numFiles](_ => None);
    }

    /**
     * `addCurDirFile(dp)`: store the entry in the lowest empty slot. Fails,
     * changing nothing, when there is no table or no empty slot.
     */
    method AddCurDirFile(dp: Entry) returns (ok: bool)
      requires curDirFiles != null ==> curDirFiles.Length == numFilesInDir
      modifies curDirFiles
      ensures curDirFiles == null ==> !ok
      ensures curDirFiles != null ==>
        && curDirFiles[..] == Added(old(curDirFiles[..]), dp)
        && (ok <==> exists j :: 0 <= j < numFilesInDir && old(curDirFiles[j]).None?)
    {
      if curDirFiles == null {
        return false;
      }
      var index := 0;
      while index < numFilesInDir
        invariant index <= numFilesInDir
        invariant forall j :: 0 <= j < index ==> curDirFiles[j].Some?
        invariant curDirFiles[..] == old(curDirFiles[..])
      {
        if curDirFiles[index].None? {
          curDirFiles[index] := Some(dp);
          return true;
        }
        index := index + 1;
      }
      return false;
    }

    /** `freeCurDirFiles`: release the table, if any; the count is kept. */
    method FreeCurDirFiles()
      modifies this`curDirFiles
      ensures curDirFiles == null
      ensures numFilesInDir == old(numFilesInDir)
    {
      if curDirFiles != null {
        curDirFiles := null;
      }
    }

    /**
     * One frame of `mainLoop`: run the command of the highest-priority key.
     * A descends only into a directory entry the selection points at; on any
     * other entry it does nothing. `first` and `second` are the listings a
     * reload in this frame would read.
     */
    method MainLoop(kDown: set<Key>, first: Listing, second: seq<Entry>) returns (frame: Frame)
      requires Valid() && curDir.Some?
      modifies this, curDirFiles
      ensures Valid() && curDir.Some?
      ensures frame == Exit <==> Decide(kDown) == Quit
      ensures Decide(kDown) in {Quit, Idle} ==> State() == old(State())
      ensures Decide(kDown) !in {Quit, Activate} ==> frame == Continue
      ensures Decide(kDown) == MoveUp ==>
        && State() == old(State()).(cursor := Step(Up, old(Pos(selLine, scrollLine)), numFilesInDir))
        && curDirFiles == old(curDirFiles)
      ensures Decide(kDown) == MoveDown ==>
        && State() == old(State()).(cursor := Step(Down, old(Pos(selLine, scrollLine)), numFilesInDir))
        && curDirFiles == old(curDirFiles)
      ensures Decide(kDown) == Back ==> State() == DirChanged(old(State()), "..", first, second)
      ensures Decide(kDown) == Activate ==>
        (frame == EmptySlot <==> old(selLine) < old(numFilesInDir) && old(Slots()[selLine]).None?)
      ensures Decide(kDown) == Activate && old(SelectsDirectory()) ==>
        State() == DirChanged(old(State()), old(Slots()[selLine]).value.name, first, second)
      ensures Decide(kDown) == Activate && !old(SelectsDirectory()) ==>
        State() == old(State())
    {
      frame := Continue;
      match Decide(kDown)
      case Quit =>
        frame := Exit;
      case MoveUp =>
        UpdateCur(Up);
      case MoveDown =>
        UpdateCur(Down);
      case Activate =>
        if selLine < numFilesInDir {
          var curFile := curDirFiles[selLine];
          match curFile
          case None =>
            frame := EmptySlot;
          case Some(e) =>
            if HasDirBit(e.dType) {
              UpdateDir(e.name, first, second);
            }
        }
      case Back =>
        UpdateDir("..", first, second);
      case Idle =>
    }
  }
}

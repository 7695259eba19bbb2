# nxfm directory browser: a Dafny model of its navigation core

nxfm is a small directory browser. It starts at the storage root `sdmc:/` and
lists the entries of the current directory, five at a time. The up and down
keys move a selection cursor and scroll the five-row window. A descends into
the selected entry when it is a directory. B goes to the parent directory, and
Plus quits.

The whole program is one C file, `source/main.c`. It keeps its state in
file-level globals:

- `curDir`: the current path;
- `numFilesInDir`: the number of entries;
- `selLine` and `scrollLine`: the cursor and the top of the window;
- `curDirFiles`: a table of entry slots.

This model covers the logic beneath the screen, input and filesystem calls:

- **Cursor** (`cursor.dfy`): the `updateCur` state machine.
  - `Step` reads its comparisons in unbounded integers.
  - `StepAsWritten` keeps the C widths (`uint8_t` cursor, `uint64_t` count).
- **View** (`view.dfy`): which entry indices fill the five display rows of
  `updateView`, which row carries the `>` marker, and the blank padding.
- **Paths** (`paths.dfy`): the path logic of `updateDir`.
  - The `".."` branch scans backwards and cuts after a separator.
  - The descend branch appends the name and `/`.
  - The root is installed when there is no path yet.
- **Cache** (`cache.dfy`): entries and the directory bit of their type byte.
  It also holds the functions that specify the slot table: the lowest empty
  slot, one add, and a table loaded from a listing.
- **Input** (`input.dfy`): the one command a frame runs. It comes from the
  highest-priority key pressed: Plus, then Up, Down, A, B.
- **FileBrowser** (`browser.dfy`): class `Browser`. Its fields are the
  globals, and its methods are `appInit` (the constructor), `updateDir`,
  `updateCur`, the row selection of `updateView`, `allocCurDirFiles`,
  `addCurDirFile`, `freeCurDirFiles` and one frame of `mainLoop`.
  - Each method states its new state in terms of the functions above.
  - `Valid()` is the invariant they all keep:
    - the path starts at the root and ends in `/`;
    - the table has `numFilesInDir` slots, or there is no table and no entries;
    - the cursor satisfies the window invariant.

The filesystem is a parameter. The first `opendir`/`readdir` pass of
`updateDir` is a `Listing`: the open fails, or it yields a sequence of
entries. The second pass is another sequence of entries, and the two passes
may differ. Pressed keys are a set of abstract keys; `Other` stands for every
key bit the loop does not check. The directory bit `DT_DIR` is given its
conventional value 4, because the header that defines it is not part of this
model.

Four behaviours of the code worth knowing:

- There is no action menu. A on an entry that is not a directory does nothing.
- When `opendir` fails, `curDir` has already been replaced or cut. Only the
  table, the count and the cursor are kept.
- `".."` at the root returns before `opendir` is called, so nothing at all
  changes.
- A mismatch between the two passes is not repaired:
  - surplus entries of the second pass are dropped;
  - missing entries leave empty slots.

## Model

| member | source | states |
|---|---|---|
| Cursor.Step | source/main.c:150-169 | Up at `selLine == 0` and Down at the last entry change nothing. Otherwise the selection moves by exactly one. The window moves by at most one, in the same direction, and only when the selection would leave it. Down never starts the window past `numFilesInDir - lineLimit`. The window invariant `scrollLine <= selLine < scrollLine + lineLimit`, with the selection inside the listing, is preserved. |
| Cursor.StepAsWritten | source/main.c:150-169 | The step with the C widths: the unsigned subtractions wrap modulo 2^64 and the increments wrap modulo 2^8. The result stays in the 8-bit range, and Up is the same as the unbounded step. |
| Cursor.AsWrittenAgrees | source/main.c:150-169 | For a non-empty listing of at most 256 entries in a valid window state, the 8-bit step equals the unbounded step in both directions. |
| Cursor.SelectionWrapsAt256 | source/main.c:161-162 | With 257 entries, Down from the valid state (selLine 255, scrollLine 251) gives (0, 251), which violates the window invariant. The unbounded step gives (256, 252). |
| Cursor.EmptyListingMovesSelection | source/main.c:161-162 | On an empty listing, Down moves `selLine` from 0 to 1 as written, because `numFilesInDir - 1` wraps. The unbounded step leaves it at 0. |
| View.ShownCount | source/main.c:181-183 | The number of entries shown is at most `lineLimit`. They all lie inside the listing, and fewer than `lineLimit` are shown only when the listing ends inside the window. |
| View.Rows | source/main.c:179-205 | Exactly `lineLimit` rows. Row `i` shows entry `scrollLine + i` when that entry exists and is blank otherwise, so the entries come first, in order, and blanks pad the rest. Only the row of `selLine` carries the marker, and under the window invariant on a non-empty listing that row is present and marked. |
| Paths.Join | source/main.c:105-111 | The child path extends the current path, is strictly longer, ends in `/`, and is valid when the current path is. |
| Paths.LastSlash | source/main.c:85-94 | The backward scan stops at the largest index in `1..i` holding `/`, or at 0 when there is none. |
| Paths.Parent | source/main.c:78-94 | `sdmc:/` is unchanged. Any other result is a prefix of the path that ends in `/`, with no `/` between the cut and the final character. The path is kept whole only when no `/` lies strictly between its first and last characters. |
| Paths.NextDir | source/main.c:75-112 | The path after `updateDir(newDir)` always exists. `"."` keeps the path, and `".."` at the root keeps the root. |
| Paths.ParentValid | source/main.c:78-94 | The parent of a valid path is valid: the cut never reaches into `sdmc:/`. |
| Paths.NextDirValid | source/main.c:75-112 | Every path `updateDir` installs starts at `sdmc:/` and ends in `/`. |
| Paths.ParentOfJoin | source/main.c:85-108 | Let `p` end in `/` with `|p| >= 2`, and let `name` be non-empty with no `/`. Then the parent of `p + name + "/"` is `p`. |
| Paths.DescendThenBack | source/main.c:78-111 | Descending into a child name (other than `.` and `..`) from a valid path and then going back gives the original path string. |
| Cache.FirstEmpty | source/main.c:279-280 | The index found is the lowest empty slot: every slot before it is filled, and it is empty unless it equals the table size. |
| Cache.Added | source/main.c:273-289 | A full table is unchanged. Otherwise the table equals the old one with only its lowest empty slot set to the entry. |
| Cache.Loaded | source/main.c:128-140 | The table after allocating `n` slots and filling them from the second pass has `n` slots. Slot `i` is filled exactly when the pass reached it (`i` below the pass's length) and then holds the pass's `i`-th entry, so surplus entries are dropped and missing ones leave empty slots. |
| Cache.AddedLoaded | source/main.c:135-140 | Adding an entry to a table loaded from `fill` gives the table loaded from `fill + [e]`. The entry lands in the next slot, or it is dropped when the table is full. |
| Input.Decide | source/main.c:215-240 | No command runs exactly when no checked key is pressed. Otherwise the command belongs to a pressed key that outranks every other pressed key. |
| FileBrowser.Browser.constructor | source/main.c:60-73 | Starting with no path and no table and opening `sdmc:/` leaves a valid state at the root. On success the table holds the root listing and the cursor is at the top. On failure there is no table and no entries. |
| FileBrowser.Browser.UpdateDir | source/main.c:75-147 | Keeps `Valid()`. The path becomes `NextDir`. `".."` at the root changes nothing. A failed `opendir` keeps the table, the count and the cursor. A successful one installs a fresh table whose size is the first pass's count and which holds the second pass in slots `0..k-1`, with `k` the smaller of the two lengths and the rest empty. It then resets `selLine` and `scrollLine` to 0. |
| FileBrowser.Browser.CutToParent | source/main.c:85-94 | The backward `while` loop leaves `curDir` equal to `Parent` of the old path. |
| FileBrowser.Browser.Reload | source/main.c:122-145 | After the counting loop, the allocation, the fill loop and the reset: the count is the first pass's length, the table is fresh with the second pass in order and extra entries dropped, and the cursor is (0, 0). |
| FileBrowser.Browser.UpdateCur | source/main.c:150-169 | Keeps `Valid()`, and the new cursor is `Cursor.Step` of the old one. |
| FileBrowser.Browser.UpdateView | source/main.c:179-205 | The index loop and the padding loop produce exactly `View.Rows` of the current count and cursor. |
| FileBrowser.Browser.AllocCurDirFiles | source/main.c:260-269 | Any previous table is dropped. The count becomes `n`, and a fresh table of `n` empty slots is installed. |
| FileBrowser.Browser.AddCurDirFile | source/main.c:273-289 | The table becomes `Cache.Added` of the old one. The call succeeds exactly when some slot was empty. With no table it fails and changes nothing. |
| FileBrowser.Browser.FreeCurDirFiles | source/main.c:291-302 | Afterwards there is no table, and `numFilesInDir` is unchanged. It is a no-op when there is no table. |
| FileBrowser.Browser.MainLoop | source/main.c:209-246 | Keeps `Valid()`. The frame exits exactly on Plus and continues on every other command except A on an empty slot. Plus or no checked key changes nothing. Up and Down step the cursor and change nothing else, keeping the same table. B is `updateDir("..")`. A on a selected directory entry is `updateDir(name)`. A on any other selection changes nothing, and A on an empty slot is reported as `EmptySlot`. |

## Findings

| source | as written | input that shows it | evidently intended | confidence | as-written member | corrected member |
|---|---|---|---|---|---|---|
| source/main.c:161-162 | `selLine` is `uint8_t` and `selLine++` runs while it is below `numFilesInDir - 1` | a directory of 257 entries, cursor at selLine 255 and scrollLine 251, Down | the selection moves to 256 and the window to 252 | not executed; high | Cursor.SelectionWrapsAt256 | Cursor.Step |
| source/main.c:161 | `numFilesInDir - 1` is unsigned and wraps to 2^64-1 for an empty directory | an empty directory, Down | Down is a no-op when there is no entry | not executed; medium (nothing is displayed until the next reload resets the cursor) | Cursor.EmptyListingMovesSelection | Cursor.Step |

Both as-written members state their discrepancy about `Cursor.StepAsWritten`.
`FileBrowser.Browser.UpdateCur` and the rest of the model use the corrected
`Cursor.Step`. `Cursor.AsWrittenAgrees` shows that the two agree on every
non-empty listing of up to 256 entries.

## Left out

- Screen, console and frame plumbing are not modelled: `gfxInitDefault`,
  `consoleInit`, the `printf` escape sequences, `gfxFlushBuffers`,
  `gfxSwapBuffers`, `gfxWaitForVsync`, `gfxExit` and the outer
  `appletMainLoop` loop. These are rendering and platform I/O. The redraw
  that `updateCur` and `updateDir` trigger is the same rendering.
- `hidScanInput`/`hidKeysDown` and the numeric `KEY_*` values: these are
  foreign input calls, so the keys are abstract.
- `opendir`/`readdir`/`closedir`: the two passes are parameters.
- The second `opendir` of `updateDir` (source/main.c:133) can fail after the
  first succeeded. `readdir` would then receive a null directory. The model
  does not capture this: `Reload` always reads the second pass.
- Memory management is abstract: names are strings and slots are optional
  entries.
  - The per-slot `free` loop (source/main.c:295-298) becomes dropping the
    table.
  - The short `malloc(strlen("sdmc:/"))` at source/main.c:103 is not modelled.
  - The 256-byte `memcpy` of `d_name` at source/main.c:283 is not modelled.
- View.Rows: rows carry entry indices only.
  - The colour choice by `d_type == DT_DIR` (an equality test, where A tests
    the bit) is rendering.
  - The source reads the type of every shown slot. An empty slot, left by a
    second pass shorter than the first, would be read through a null pointer.
    The rows do not capture that fault. `MainLoop` reports the same fault on A
    as `EmptySlot` instead of crashing.
- Integer widths outside the cursor are not modelled:
  - `numFilesInDir` is a `nat`; a `uint64_t` count cannot overflow in practice.
  - `rIndex` is `uint32_t`, so paths longer than 2^32 characters would be cut
    wrongly; paths are unbounded here.
- FileBrowser.Browser.UpdateCur: uses the corrected unbounded step. The 8-bit
  behaviour of `selLine` and `scrollLine` is stated only by
  `Cursor.StepAsWritten` (see Findings).
- `appExit` is teardown and is not modelled beyond `FreeCurDirFiles`.
- The `main` outer loop is not modelled either.

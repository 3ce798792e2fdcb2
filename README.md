# collager: the mirror-tile collage engine in Dafny

The collager tools take one source image, derive its three mirror images and
paint 2×2 collages of them. The command-line tool `collage_cmd.py` paints up to
eight patterns and saves them. The window `collager.py` paints four patterns
into four check boxes and saves the checked ones on request. This project
models the engine both tools share and proves properties of it:

- `wrappers.dfy`: `Option` and `Result`.
- `strings.dfy`: the Python string operations the tools use. These are
  `isdigit`, `int`, `f"{n}"`, `split`, `join`, and the POSIX `os.path.split`
  and `os.path.splitext`.
- `images.dfy`: rasters as rows of an abstract `Pixel`, `QImage.mirrored`, and
  the four variants N, H, V and HV.
- `patterns.dfy`: the 8-row table of the command-line tool, its usage text, and
  the 4-row table of the window.
- `compositor.dfy`: the four `drawImage` calls on a 2W×2H canvas. There is a
  value model (`Draw`, `Collage`) and an in-place model on an `array2`
  (`NewCanvas`, `DrawAt`, `Compose`).
- `collage_cmd.dfy`: `parse_indices`, the file names, the ordered list of saves
  `build_collage` and `tile_one` make (an `Outcome`, possibly ending in a
  failure), and the dispatch of `__main__` on `-i`.
- `collager.dfy`: the window as a class `CollagerWin`. Its fields are
  `cllimagemap`, the key order, `srcfile`, `image_dir` and `image_file`. A
  group box is reduced to a `Box(checked, name)` record.

A save is a `Write(name, image)` record, and an operation returns the list of
saves it makes. The functions that define these plans (`ParseSpec`,
`CollagePlan`, `TilePlan`, `SavePlan` and the file-name functions) carry
contracts of their own, and the lemmas and methods in the table below state
what the plans mean.

Some behaviour of the code that a reader might not expect:

- Both tools allocate a canvas of 2W×2H (collage_cmd.py:119-125,
  collager.py:261-268). The draws at (0,0), (W-1,0), (0,H-1) and (W-1,H-1)
  cover only [0, 2W-1)×[0, 2H-1). The last column and the last row keep
  whatever the freshly allocated `QImage` held, so the model takes the
  canvas's initial contents as an input.
- The window's four patterns (collager.py:253-257) are rows 0–3 of the
  command-line table, in the same order. The captions of boxes 2 and 3
  (collager.py:84-88) are swapped relative to those rows; the model follows
  the table the code draws from.
- An index of 8 or more raises at `patterns[i]` (collage_cmd.py:131). The
  mirror files and the collages of the earlier indices have been saved by
  then, and the run ends there.
- The mirror files are saved only when more than one index is given
  (collage_cmd.py:99).
- The window names a collage by splicing `_cll{i}` before the first dot of
  the file name (collager.py:226-228), while the command-line tool inserts
  its suffixes before the extension.
- An empty base name is used as is.
- `parse_indices` fails in two ways: `each[0]` raises IndexError on an empty
  token (for instance `"1,,2"`), and `int()` raises ValueError on a token
  that is neither digits nor digit-dash-digit (collage_cmd.py:56-59). The
  model merges both into the single failure `MalformedIndexSpec`. Either one
  ends the run before anything is written.

## Model

| member | source | states |
|---|---|---|
| Images.Mirrored | collage_cmd.py:94-96 | a mirrored image keeps the source's width and height |
| Images.MirroredAt | collage_cmd.py:94-96 | pixel (x, y) of `mirrored(h, v)` is the source pixel with the column reversed when h and the row reversed when v |
| Images.MirroredTwice | collage_cmd.py:94-96 | mirroring twice is one mirroring by the exclusive-or of the flags |
| Images.MirrorHInvolution | collage_cmd.py:94 | the H mirror undoes itself |
| Images.MirrorVInvolution | collage_cmd.py:95 | the V mirror undoes itself |
| Images.MirrorsCommute | collage_cmd.py:94-95 | H after V equals V after H |
| Images.MirrorHVIsHAfterV | collage_cmd.py:96 | `mirrored(True, True)` is the H mirror applied after the V mirror |
| Images.Apply | collager.py:248-251 | the image a variant names is `src` for N and the matching mirror otherwise, of the source's size |
| Images.ApplyFlipH | collage_cmd.py:94-96 | the variant that flips the other way left-right names the left-right mirror of the image |
| Images.ApplyFlipV | collage_cmd.py:94-96 | the variant that flips the other way top-bottom names the top-bottom mirror of the image |
| Patterns.PatternAt | collage_cmd.py:143-151 | `patterns[i]` exists exactly for the eight indices the usage text lists, and then slot k holds exactly the variant whose variable the usage text names in column k of row i |
| Patterns.HelpMatchesTable | collage_cmd.py:143-151 | the usage text lists eight rows, each naming slot for slot the variables of the table's row |
| Patterns.VariableNameInjective | collage_cmd.py:143-151 | the four image variables name four different variants |
| Patterns.Row4IsIdentity | collage_cmd.py:111 | row 4 draws the source itself in all four slots |
| Patterns.GuiRowsAreCliRows | collager.py:253-257 | the window's four rows are rows 0–3 of the command-line table, in order |
| Patterns.MirrorRows | collage_cmd.py:107-115 | a row mirrors its left column into its right and its top row into its bottom exactly when it is one of rows 0–3 |
| Compositor.Draw | collage_cmd.py:132 | one `drawImage` keeps the canvas at its width and height |
| Compositor.DrawTwice | collage_cmd.py:132 | drawing the same tile again at the same offset changes nothing: a draw overwrites what it covers |
| Compositor.Collage | collage_cmd.py:132-135 | the four draws keep the canvas at its width and height |
| Compositor.CollageAt | collage_cmd.py:132-135 | every collage pixel is `ShownPixel`: within [0, 2W-1)×[0, 2H-1) a collage pixel comes from slot (y ≥ H-1 ? 2 : 0) + (x ≥ W-1 ? 1 : 0), sampled at that slot's corner offset; the last column and row keep the canvas's contents |
| Compositor.RedrawAbsorbs | collage_cmd.py:129-136 | drawing a collage over an earlier collage on the canvas gives the same image as drawing it on the canvas alone |
| Compositor.DrawnRegionIndependent | collage_cmd.py:129-136 | two collages of the same tiles agree on the drawn region whatever the canvases held |
| Compositor.QuadrantsWholeIffSeamed | collage_cmd.py:132-135 | every tile shows whole in its quadrant exactly when neighbouring tiles agree along their one-pixel overlaps |
| Compositor.WholeQuadrantsSeamed | collage_cmd.py:132-135 | if every quadrant shows its tile whole, the tiles agree along the overlaps |
| Compositor.SeamedAllWhole | collage_cmd.py:132-135 | if the tiles agree along the overlaps, every quadrant of the collage shows its tile whole |
| Compositor.SeamedQuadrantWhole | collage_cmd.py:132-135 | if the tiles agree along the overlaps, one given quadrant shows its tile whole |
| Compositor.MirrorPatternSeamed | collage_cmd.py:107-110 | in a mirror pattern, neighbouring tiles agree along their shared edges |
| Compositor.NewCanvas | collage_cmd.py:125 | a fresh 2-D canvas holding the given initial contents |
| Compositor.DrawAt | collage_cmd.py:132 | after `drawImage(ox, oy, tile)` the canvas is the clipped opaque overwrite of its old contents |
| Compositor.Compose | collage_cmd.py:132-135 | after the four draws the canvas is the collage of its old contents |
| Strings.ParseNatToString | collage_cmd.py:57 | `int` reads back the decimal text of a number |
| Strings.ParseDecimal | collage_cmd.py:57 | `int` of one digit is that digit's value, and of digits not starting with 0 is at least 1 |
| Strings.DecimalRoundTrip | collage_cmd.py:56-57 | a digit string without a leading zero is the decimal text of its `int` value |
| Strings.NatToStringInjective | collage_cmd.py:130 | different numbers have different decimal texts |
| Strings.NatToString | collage_cmd.py:130 | `f"{i}"` is a non-empty digit string without a leading zero |
| Strings.Split | collage_cmd.py:53 | `split(sep)` gives at least one piece, none containing the separator |
| Strings.JoinSplit | collager.py:226-228 | joining the pieces of a split with the separator gives the string back |
| Strings.SplitJoin | collager.py:226-228 | splitting a join of separator-free pieces gives the pieces back |
| Strings.Join | collager.py:228 | `sep.join` starts with the first piece and, when there are more, puts the separator right after it |
| Strings.SplitNoSep | collage_cmd.py:53 | a string without the separator splits into itself alone |
| Strings.SplitConcat | collage_cmd.py:53 | splitting `a + sep + b` gives the pieces of `a` followed by those of `b` |
| Strings.SplitFirst | collager.py:226 | the first piece of a split is the text before the first separator |
| Strings.SplitExt | collage_cmd.py:98 | `splitext` gives base + extension == name; the extension starts at the last dot, unless only dots precede that dot |
| Strings.SplitPath | collage_cmd.py:46-48 | `os.path.split` gives a tail that follows the last '/' and contains none, and a head that is a prefix of the path |
| Strings.FileName | collage_cmd.py:44-49 | the file name `get_src` returns is the slash-free end of the path |
| CollageCmd.Range | collage_cmd.py:59 | `range(lo, hi)` has hi - lo elements, the k-th being lo + k |
| CollageCmd.ParseToken | collage_cmd.py:56-59 | a token is accepted exactly when its first and last characters are digits, and fails only as a malformed specification; an all-digit token is its decimal value; any other gives every digit from its first to its last character, in order, each at most 9 |
| CollageCmd.ParseTokensErrPrefix | collage_cmd.py:55-59 | a bad token anywhere fails the whole list |
| CollageCmd.ParseTokens | collage_cmd.py:55-59 | the only failure of a token list is a malformed specification |
| CollageCmd.ParseTokensSnoc | collage_cmd.py:55-59 | one more token appends its result, and a failure of the list so far or of the token fails the whole |
| CollageCmd.ParseTokensOkIff | collage_cmd.py:55-59 | a token list parses exactly when every token does |
| CollageCmd.ParseTokensAppend | collage_cmd.py:55-59 | the tokens of two lists parse independently and their results concatenate |
| CollageCmd.ParseSpec | collage_cmd.py:53-60 | `parse_indices` fails only with a malformed specification |
| CollageCmd.ParseSpecComma | collage_cmd.py:53-60 | text around a comma parses independently, with results concatenated and duplicates kept; either part failing fails the whole |
| CollageCmd.ParseSpecOneToken | collage_cmd.py:53-60 | a text without commas is parsed as one token |
| CollageCmd.ParseSpecDigit | collage_cmd.py:56-57 | a single digit is that index |
| CollageCmd.ParseSpecDash | collage_cmd.py:58-59 | "a-b" is the indices a to b inclusive |
| CollageCmd.ParseSpecListExample | collage_cmd.py:51-60 | "0,2,5" gives [0, 2, 5] |
| CollageCmd.ParseSpecThreeDigits | collage_cmd.py:53-57 | three single digits separated by commas are those three indices, in order |
| CollageCmd.ParseSpecMixedExample | collage_cmd.py:51-60 | "7,0-1" gives [7, 0, 1] |
| CollageCmd.ParseSpecRangeExamples | collage_cmd.py:58-59 | "0-3" gives [0, 1, 2, 3]; the reversed "3-1" gives nothing |
| CollageCmd.ParseSpecTwelve | collage_cmd.py:56-57 | "12" gives [12] |
| CollageCmd.ParseSpecTenToTwelve | collage_cmd.py:58-59 | "10-12" gives [1, 2] |
| CollageCmd.ParseSpecMalformedExamples | collage_cmd.py:56-59 | "x" and the empty token of "1,,2" fail |
| CollageCmd.ParseIndices | collage_cmd.py:51-60 | the append/extend loop returns the parse of the whole text, or the malformed-specification failure |
| CollageCmd.MirrorFileName | collage_cmd.py:100-104 | a mirror file name is one character plus the tag longer than the file name |
| CollageCmd.MirrorFileNameSplice | collage_cmd.py:100-104 | a mirror file name holds `_` and the tag right after the base name, and cutting them out gives the file name back |
| CollageCmd.CollageFileName | collage_cmd.py:130 | a collage file name starts with the base name and `_CLL`, and ends in `.jpg` whatever the source's extension |
| CollageCmd.TileFileName | collage_cmd.py:69 | the tile file name starts with the base name and ends in `.jpg` |
| CollageCmd.CollageFileNameInjective | collage_cmd.py:130 | two indices share a `_CLL{i}.jpg` name exactly when they are equal, whatever the extension |
| CollageCmd.MirrorFileNameDistinct | collage_cmd.py:100-105 | a mirror file name is never a collage file name or the tile file name |
| CollageCmd.MirrorFileNamesDistinct | collage_cmd.py:100-104 | the H, V and HV files have three different names |
| CollageCmd.NamesOfPhotoPng | collage_cmd.py:98-100 | "photo.png" gives "photo_H.png" and "photo_CLL3.jpg" |
| CollageCmd.MirrorWrites | collage_cmd.py:99-105 | the mirror saves are three images, each of the source's size |
| CollageCmd.IndexWrites | collage_cmd.py:129-136 | the loop saves at most one file per index, one per index when nothing fails, and the only failure is an index of 8 or more |
| CollageCmd.CollagePlan | collage_cmd.py:98-136 | without a failure `build_collage` saves one file per index, plus three mirror files when more than one index is given; the only failure is an index out of range |
| CollageCmd.IndexWritesStep | collage_cmd.py:129-136 | one loop step saves its pattern drawn over the current canvas, or fails at an index of 8 or more |
| CollageCmd.IndexWritesAdvance | collage_cmd.py:129-136 | an index in the table adds its collage, drawn on the current canvas, after the files saved so far |
| CollageCmd.IndexWritesStop | collage_cmd.py:131 | an index of 8 or more ends the saves there, with that index as the failure |
| CollageCmd.IndexWritesDone | collage_cmd.py:129-136 | once every index is done, the files saved so far are all of them |
| CollageCmd.ValidPrefix | collage_cmd.py:131 | the number of leading indices inside the table, the next one being outside it |
| CollageCmd.IndexWritesClosedForm | collage_cmd.py:125-136 | the loop saves, for each leading valid index in order, `{base}_CLL{i}.jpg` holding its pattern drawn on the allocated canvas, then stops at the first invalid index, which is the failure |
| CollageCmd.IndexWritesAbsorb | collage_cmd.py:129-136 | what an earlier collage left on the shared canvas makes no difference to the later saves |
| CollageCmd.CollagePlanShape | collage_cmd.py:98-136 | `build_collage` saves H, V, HV first exactly when more than one index is given, then one collage per leading valid index, with the failure at the first invalid one |
| CollageCmd.MirrorFilesIff | collage_cmd.py:99-105 | a mirror file is saved exactly when more than one index is given |
| CollageCmd.BuildCollage | collage_cmd.py:88-139 | the method saves exactly the plan `CollagePlan` |
| CollageCmd.SaveCollages | collage_cmd.py:125-136 | the loop over one shared array canvas saves exactly `IndexWrites` of the allocated canvas |
| CollageCmd.TilePlan | collage_cmd.py:62-86 | `tile_one` saves exactly one file, a 2W×2H image, and cannot fail |
| CollageCmd.TileOne | collage_cmd.py:62-86 | `tile_one` saves one file `{base}_tile.jpg` holding the source drawn in all four slots |
| CollageCmd.TileIsPattern4 | collage_cmd.py:62-86 | the single tile is pattern 4's collage on the same canvas, under a name no index uses |
| CollageCmd.SingleIndexZero | collage_cmd.py:88-136 | `-i 0` saves only `{base}_CLL0.jpg`, showing the source whole at the top left and the HV mirror whole at the bottom right |
| CollageCmd.PatternZeroCorners | collage_cmd.py:107-135 | pattern 0's collage shows the source whole at the top left and the HV mirror whole at the bottom right |
| CollageCmd.Run | collage_cmd.py:170-183 | a missing file fails; no option means indices 0–7; exactly "4" means `tile_one`; anything else is parsed, and a parse failure writes nothing |
| Collager.WindowCollage | collager.py:259-273 | a window collage is 2W×2H |
| Collager.WindowCollageIsCliCollage | collager.py:253-273 | window collage i equals the command-line collage for index i on the same canvas |
| Collager.WindowCollageWhole | collager.py:253-273 | every window collage shows each of its four tiles whole |
| Collager.DrawCollage | collager.py:267-273 | one iteration draws window pattern i on a fresh canvas |
| Collager.CllKeysDistinct | collager.py:275 | `f"cll{i}"` and `f"cll{j}"` are equal exactly when i == j |
| Collager.KeysDistinct | collager.py:78-88 | the four keys are pairwise distinct |
| Collager.CllFileName | collager.py:226-228 | the display name starts with the text before the first dot, then `_` and the key |
| Collager.CllFileNameSplice | collager.py:226-228 | the display name is the file name with `_` and the key inserted before its first dot, or appended when there is none |
| Collager.SpliceBeforeFirstDot | collager.py:226-228 | with a dot in the name, the key is spliced in at the first dot's index |
| Collager.SpliceAtFirstDot | collager.py:226-228 | the splice of a name whose first dot follows `head` |
| Collager.CheckedWrites | collager.py:137-144 | at most one file per entry is saved, and none when no box is checked |
| Collager.CheckedWritesStep | collager.py:137-144 | one more entry adds its save, when checked, after those of the entries before it |
| Collager.SaveChecked | collager.py:137-144 | the loop over the entries saves exactly `CheckedWrites` |
| Collager.CheckedWritesExactly | collager.py:137-144 | a file is saved exactly for each checked entry, under its box's name, holding its newest collage |
| Collager.CheckedWritesCount | collager.py:137-144 | one file is saved per checked entry |
| Collager.SavePlan | collager.py:129-144 | `save` writes at most one file per entry, and nothing without a directory |
| Collager.CollagerWin.constructor | collager.py:41-88 | the map holds exactly cll0 to cll3 in that order, each with a checked empty box and no collage, and no source is set |
| Collager.CollagerWin.MkBoxes | collager.py:78-88 | the four `mkbox` calls add the four keys in order, each with a checked empty box |
| Collager.CollagerWin.MkBox | collager.py:187-195 | the key maps to a fresh checked box and an empty list, appended to the key order if new |
| Collager.CollagerWin.BuildCollages | collager.py:246-283 | each key's list gains exactly one image, the fresh collage of its pattern, and earlier elements are unchanged |
| Collager.CollagerWin.AppendCollages | collager.py:275-281 | each key's list gains its collage at the end; keys, boxes and fields are unchanged |
| Collager.CollagerWin.MkCllPix | collager.py:211-243 | after `mkcllpix` each entry has its display name and one more collage; checked flags are unchanged |
| Collager.CollagerWin.NameCollages | collager.py:218-231 | each line edit is set to the display name of its key; everything else is unchanged |
| Collager.CollagerWin.OnSrcClicked | collager.py:177-185 | the chosen path, its directory and its file name are set, and each entry gets its named collage; the invariant is kept |
| Collager.CollagerWin.SetSource | collager.py:179-184 | the chosen path, its `os.path.split` directory and its file name are set, and the entries are unchanged |
| Collager.CollagerWin.Save | collager.py:127-147 | without a directory nothing is saved; otherwise the checked entries in key order, each under its name with its newest collage |
| Collager.CollagerWin.Reset | collager.py:149-175 | the source, directory and file name are cleared, and so is every name; keys, checked flags and collages stay |
| Collager.CollagerWin.ClearNames | collager.py:155-161 | every line edit is cleared and nothing else changes |

## Left out

- Qt widgets, layouts, labels, pixmaps, `scaledToWidth`, the usage printing
  and the status line are user interface. `reset`'s restoring of the grey
  placeholder pixmaps goes with them.
- The file dialog of `on_src_clicked` is not modelled: the chosen path is a
  parameter. A cancelled dialog returns "", which passes the `is not None`
  guard and builds collages from a null image. This model requires a decoded
  image of at least 1×1, so that case is outside it.
- Null or empty images from a failed decode are left out. Every operation
  requires W, H ≥ 1, where the source would compute offsets of -1.
- Decoding and encoding images and the `quality=100` setting are foreign I/O.
  The source image and the initial canvas contents are parameters, and a save
  is a `Write` record in the returned plan.
- argparse, logging, `sys.exit` and `os.path.isfile` are left out. Whether the
  file exists is a parameter of `Run`.
- `os.path.join` and `normpath` are left out. A `Write` carries the file name
  only, not the directory.
- CollageCmd.ParseToken: does not model the interpreter's limit on `int()`
  (collage_cmd.py:57). From CPython 3.11 (and 3.10.7, 3.9.14) `int()` raises
  ValueError for a string of more than 4300 digits unless the limit is raised
  with `sys.set_int_max_str_digits`. The model parses a token of any length,
  because the limit depends on the interpreter's version and settings.
- CollageCmd.ParseToken: accepts only ASCII 0–9. `str.isdigit` (collage_cmd.py:56)
  and `int()` (collage_cmd.py:57, 59) also accept other Unicode decimal digits,
  so `"٣-5"` gives [3, 4, 5] in the source and `MalformedIndexSpec` in the
  model. `Strings.IsDigits` and `Strings.DigitValue` cover ASCII only, since
  strings here carry no Unicode character database.
- QPainter's alpha blending and pixel formats are left out. A draw is an
  opaque overwrite, clipped to the canvas.
- The ordering of `painter.end()` after the save is a Qt resource detail.
- The attribute `self.collages` of `build_collages` is never read, so it is
  not modelled.
- The user's edits to the check boxes and line edits happen through widgets.
  `Save` reads whatever the entries hold.
- Collager.CollagerWin.BuildCollages paints the four collages first and then
  appends them. The source appends each one inside the painting loop. The
  final state is the same.
- The "should raise exception" branches skip a missing key in `mkcllpix` and
  `build_collages`. They are kept in the loops but cannot be taken: the class
  invariant keeps all four keys in the dictionary.

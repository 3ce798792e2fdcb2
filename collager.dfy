/**
 * The collage window. Its state, apart from the widgets, is the dictionary
 * `cllimagemap` from the keys "cll0" to "cll3" to a group box followed by
 * every collage built for that key, the source path, and the directory and
 * file name of the source. A group box is seen here only through what the
 * tool reads from it: whether it is checked and the file name in its line
 * edit.
 */
module Collager {
  import opened Wrappers
  import opened Strings
  import opened Images
  import opened Patterns
  import opened Compositor

  /** What `save` and `reset` read from a group box. */
  datatype Box = Box(checked: bool, name: string)

  /** A source image and the four canvases `build_collages` allocates for it. */
  predicate CanvasesFor(inits: seq<Image>, src: Image)
  {
    IsImage(src) && |inits| == 4
    && forall i :: 0 <= i < 4 ==> HasSize(inits[i], 2 * Width(src), 2 * Height(src))
  }

  /** The collage the window builds for box `i` on canvas `init`. */
  function WindowCollage(init: Image, src: Image, i: nat): (r: Image)
    requires i < 4 && CanvasForSource(init, src)
    ensures HasSize(r, 2 * Width(src), 2 * Height(src))
  {
    Collage(init, Tiles(GuiPatterns[i], src))
  }

  /** The window's collage `i` is the command-line tool's collage for index `i` on the same canvas. */
  lemma WindowCollageIsCliCollage(init: Image, src: Image, i: nat)
    requires i < 4 && CanvasForSource(init, src)
    ensures WindowCollage(init, src, i) == Collage(init, Tiles(CliPatterns[i], src))
  {
    GuiRowsAreCliRows();
    assert GuiPatterns[i] == CliPatterns[i];
  }

  /** Every window pattern is a mirror pattern, so each of its four tiles shows whole in its quadrant. */
  lemma WindowCollageWhole(init: Image, src: Image, i: nat)
    requires i < 4 && CanvasForSource(init, src)
    ensures AllQuadrantsWhole(WindowCollage(init, src, i), Tiles(GuiPatterns[i], src))
  {
    MirrorRows();
    GuiRowsAreCliRows();
    assert GuiPatterns[i] == CliPatterns[i];
    MirrorPatternSeamed(GuiPatterns[i], src);
    SeamedAllWhole(init, Tiles(GuiPatterns[i], src));
  }

  /**
   * One iteration of `build_collages`' drawing: a fresh canvas painted with
   * the four tiles of window pattern `i`.
   */
  method DrawCollage(init: Image, src: Image, i: nat) returns (collage: Image)
    requires i < 4 && CanvasForSource(init, src)
    ensures collage == WindowCollage(init, src, i)
  {
    var target := NewCanvas(init);
    Compose(target, Tiles(GuiPatterns[i], src));
    collage := Grid(target);
  }

  /** `cllimagemap[key]`: the box, then the collages built for it, oldest first. */
  datatype Entry = Entry(box: Box, images: seq<Image>)

  /** `f"cll{i}"`. */
  function CllKey(i: nat): string
  {
    "cll" + NatToString(i)
  }

  /** The keys in the order `_initUI` creates their boxes. */
  const Keys: seq<string> := [CllKey(0), CllKey(1), CllKey(2), CllKey(3)]

  /** The four keys are pairwise distinct. */
  lemma KeysDistinct()
    ensures forall i, j :: 0 <= i < 4 && 0 <= j < 4 && i != j ==> Keys[i] != Keys[j]
  {
    CllKeysDistinct(0, 1); CllKeysDistinct(0, 2); CllKeysDistinct(0, 3);
    CllKeysDistinct(1, 2); CllKeysDistinct(1, 3); CllKeysDistinct(2, 3);
  }

  lemma CllKeysDistinct(i: nat, j: nat)
    ensures CllKey(i) == CllKey(j) <==> i == j
  {
    if CllKey(i) == CllKey(j) {
      assert CllKey(i)[3..] == NatToString(i) && CllKey(j)[3..] == NatToString(j);
      NatToStringInjective(i, j);
    }
  }

  /**
   * The display name `mkcllpix` puts in the line edit: the file name split at
   * its dots, "_" and the key appended to the first piece, joined again.
   */
  function CllFileName(file: string, key: string): (r: string)
    ensures Split(file, '.')[0] + "_" + key <= r
  {
    var parts := Split(file, '.');
    Join([parts[0] + "_" + key] + parts[1..], '.')
  }

  /**
   * The display name is the file name with "_" and the key inserted before
   * its first dot, everything from that dot on unchanged, or appended when
   * there is no dot.
   */
  lemma CllFileNameSplice(file: string, key: string)
    ensures '.' in file ==>
      var i := FirstIndex(file, '.');
      CllFileName(file, key) == file[..i] + "_" + key + file[i..]
    ensures '.' !in file ==> CllFileName(file, key) == file + "_" + key
  {
    if '.' in file {
      SpliceBeforeFirstDot(file, key);
    } else {
      SplitNoSep(file, '.');
    }
  }

  /** The splice on a name with a dot, at the index of its first one. */
  lemma SpliceBeforeFirstDot(file: string, key: string)
    requires '.' in file
    ensures var i := FirstIndex(file, '.');
      CllFileName(file, key) == file[..i] + "_" + key + file[i..]
  {
    var i := FirstIndex(file, '.');
    var head, rest := file[..i], file[i + 1..];
    assert file == head + ['.'] + rest;
    assert file[i..] == ['.'] + rest;
    SpliceAtFirstDot(head, rest, key);
  }

  /** The splice on a name whose first dot ends `head`. */
  lemma SpliceAtFirstDot(head: string, rest: string, key: string)
    requires '.' !in head
    ensures CllFileName(head + ['.'] + rest, key) == head + "_" + key + (['.'] + rest)
  {
    var file := head + ['.'] + rest;
    SplitConcat(head, rest, '.');
    SplitNoSep(head, '.');
    var parts := Split(file, '.');
    assert parts == [head] + Split(rest, '.');
    var first := head + "_" + key;
    var spliced := [first] + parts[1..];
    assert spliced[1..] == Split(rest, '.');
    JoinSplit(rest, '.');
    assert Join(spliced, '.') == first + ['.'] + rest;
  }

  /** The collage files `save` writes from the entries of `keys`, in order: the checked ones only. */
  function CheckedWrites(keys: seq<string>, m: map<string, Entry>): (r: seq<Write>)
    requires forall k :: k in keys ==> k in m && |m[k].images| >= 1
    ensures |r| <= |keys|
    ensures (forall k :: k in keys ==> !m[k].box.checked) ==> r == []
  {
    if keys == [] then []
    else
      var key := keys[|keys| - 1];
      var e := m[key];
      CheckedWrites(keys[..|keys| - 1], m)
        + (if e.box.checked then [Write(e.box.name, e.images[|e.images| - 1])] else [])
  }

  /** One more key: its entry's write, if it is checked, follows the writes of the keys before it. */
  lemma CheckedWritesStep(keys: seq<string>, m: map<string, Entry>, k: nat)
    requires k < |keys| && forall key :: key in keys ==> key in m && |m[key].images| >= 1
    ensures forall key :: key in keys[..k + 1] ==> key in m && |m[key].images| >= 1
    ensures CheckedWrites(keys[..k + 1], m)
      == CheckedWrites(keys[..k], m) + (if m[keys[k]].box.checked then [EntryWrite(m[keys[k]])] else [])
  {
    assert forall key :: key in keys[..k + 1] ==> key in keys;
    assert keys[..k + 1][..k] == keys[..k];
  }

  /** The write `save` makes for one checked entry: its edited name and its newest collage. */
  function EntryWrite(e: Entry): Write
    requires |e.images| >= 1
  {
    Write(e.box.name, e.images[|e.images| - 1])
  }

  /** The files written are exactly the checked entries, each under the name in its box with its newest collage. */
  lemma {:induction false} CheckedWritesExactly(keys: seq<string>, m: map<string, Entry>)
    requires forall k :: k in keys ==> k in m && |m[k].images| >= 1
    ensures forall w :: w in CheckedWrites(keys, m) <==>
      exists k :: k in keys && m[k].box.checked && w == EntryWrite(m[k])
  {
    if keys != [] {
      var init := keys[..|keys| - 1];
      var last := keys[|keys| - 1];
      CheckedWritesExactly(init, m);
      assert forall k :: k in keys <==> k in init || k == last;
    }
  }

  /** One file is written per checked entry. */
  lemma {:induction false} CheckedWritesCount(keys: seq<string>, m: map<string, Entry>)
    requires forall k :: k in keys ==> k in m && |m[k].images| >= 1
    ensures |CheckedWrites(keys, m)| == |set j | 0 <= j < |keys| && m[keys[j]].box.checked|
  {
    if keys != [] {
      CheckedWritesCount(keys[..|keys| - 1], m);
      CheckedIndicesStep(keys, m);
    }
  }

  /** The checked positions of a list are those of its front and, if checked, its last position. */
  lemma CheckedIndicesStep(keys: seq<string>, m: map<string, Entry>)
    requires keys != [] && forall k :: k in keys ==> k in m
    ensures var n := |keys| - 1;
      |set j | 0 <= j < |keys| && m[keys[j]].box.checked|
        == |set j | 0 <= j < n && m[keys[..n][j]].box.checked| + (if m[keys[n]].box.checked then 1 else 0)
  {
    var n := |keys| - 1;
    var before := set j | 0 <= j < n && m[keys[..n][j]].box.checked;
    var now := set j | 0 <= j < |keys| && m[keys[j]].box.checked;
    assert before == set j | 0 <= j < n && m[keys[j]].box.checked;
    if m[keys[n]].box.checked {
      assert now == before + {n};
    } else {
      assert now == before;
    }
  }

  /** The loop of `save`: for each entry in dictionary order, its box's name and newest collage when it is checked. */
  method SaveChecked(keys: seq<string>, m: map<string, Entry>) returns (writes: seq<Write>)
    requires forall key :: key in keys ==> key in m && |m[key].images| >= 1
    ensures writes == CheckedWrites(keys, m)
  {
    writes := [];
    var k := 0;
    while k < |keys|
      invariant 0 <= k <= |keys|
      invariant forall key :: key in keys[..k] ==> key in m && |m[key].images| >= 1
      invariant writes == CheckedWrites(keys[..k], m)
    {
      var cllkey := keys[k];
      var value := m[cllkey];
      CheckedWritesStep(keys, m, k);
      if value.box.checked {
        var thisImage := value.images[|value.images| - 1];
        writes := writes + [Write(value.box.name, thisImage)];
      }
      k := k + 1;
    }
    assert keys[..k] == keys;
  }

  /** `save`: nothing without a directory, otherwise the checked entries in dictionary order. */
  function SavePlan(keys: seq<string>, m: map<string, Entry>, imageDir: Option<string>): (r: seq<Write>)
    requires imageDir.Some? ==> forall k :: k in keys ==> k in m && |m[k].images| >= 1
    ensures |r| <= |keys|
    ensures imageDir.None? ==> r == []
  {
    if imageDir.None? then [] else CheckedWrites(keys, m)
  }

  class CollagerWin {
    var cllimagemap: map<string, Entry>
    /** The order the keys of `cllimagemap` were inserted in, which is the order it is iterated in. */
    var keys: seq<string>
    var imageDir: Option<string>
    var imageFile: Option<string>
    var srcfile: string

    /** `keys` lists the four distinct keys `cll0` to `cll3`, each in the dictionary. */
    ghost predicate Keyed()
      reads this
    {
      keys == Keys
      && |keys| == 4
      && (forall i, j :: 0 <= i < 4 && 0 <= j < 4 && i != j ==> keys[i] != keys[j])
      && (forall i :: 0 <= i < 4 ==> keys[i] in cllimagemap)
    }

    /**
     * The dictionary holds exactly the listed keys; the directory and the file
     * name are set together; once they are, every entry holds a collage.
     */
    ghost predicate Valid()
      reads this
    {
      Keyed()
      && cllimagemap.Keys == {keys[0], keys[1], keys[2], keys[3]}
      && (imageDir.Some? <==> imageFile.Some?)
      && (imageDir.Some? ==> forall i :: 0 <= i < 4 ==> |cllimagemap[keys[i]].images| >= 1)
    }

    /**
     * `__init__` and `_initUI`: one checked, empty box per key, no source.
     * `__init__` never assigns `srcfile`; the attribute first exists after
     * `on_src_clicked` or `reset`, and `""` here stands for it not existing yet.
     */
    constructor ()
      ensures Valid() && keys == Keys
      ensures imageDir == None && imageFile == None && srcfile == ""
      ensures forall k :: k in cllimagemap ==> cllimagemap[k] == Entry(Box(true, ""), [])
    {
      cllimagemap := map[];
      keys := [];
      imageDir, imageFile := None, None;
      srcfile := "";
      new;
      KeysDistinct();
      MkBoxes(Keys[0], Keys[1], Keys[2], Keys[3]);
    }

    /** The four `mkbox` calls of `_initUI`, on an empty dictionary. */
    method MkBoxes(k0: string, k1: string, k2: string, k3: string)
      requires cllimagemap == map[] && keys == []
      requires k0 != k1 && k0 != k2 && k0 != k3 && k1 != k2 && k1 != k3 && k2 != k3
      modifies this
      ensures keys == [k0, k1, k2, k3] && cllimagemap.Keys == {k0, k1, k2, k3}
      ensures forall k :: k in cllimagemap ==> cllimagemap[k] == Entry(Box(true, ""), [])
      ensures imageDir == old(imageDir) && imageFile == old(imageFile) && srcfile == old(srcfile)
    {
      MkBox(k0);
      MkBox(k1);
      MkBox(k2);
      MkBox(k3);
    }

    /** `mkbox`: a fresh checked box with an empty line edit and no collage yet. */
    method MkBox(key: string)
      modifies this
      ensures cllimagemap == old(cllimagemap)[key := Entry(Box(true, ""), [])]
      ensures keys == if key in old(cllimagemap) then old(keys) else old(keys) + [key]
      ensures imageDir == old(imageDir) && imageFile == old(imageFile) && srcfile == old(srcfile)
    {
      if key !in cllimagemap {
        keys := keys + [key];
      }
      cllimagemap := cllimagemap[key := Entry(Box(true, ""), [])];
    }

    /**
     * `build_collages`: each of the four window patterns drawn on a fresh
     * canvas and appended to its key's list.
     */
    method BuildCollages(src: Image, inits: seq<Image>)
      requires Keyed()
      requires CanvasesFor(inits, src)
      modifies this
      ensures Keyed() && keys == old(keys)
      ensures cllimagemap.Keys == old(cllimagemap).Keys
      ensures imageDir == old(imageDir) && imageFile == old(imageFile) && srcfile == old(srcfile)
      ensures forall i :: 0 <= i < 4 ==>
        cllimagemap[keys[i]] == old(cllimagemap)[keys[i]].(images :=
          old(cllimagemap)[keys[i]].images + [WindowCollage(inits[i], src, i)])
    {
      var built: seq<Image> := [];
      var i := 0;
      while i < 4
        invariant 0 <= i <= 4 && |built| == i
        invariant forall j :: 0 <= j < i ==> built[j] == WindowCollage(inits[j], src, j)
        invariant unchanged(this)
      {
        var collage := DrawCollage(inits[i], src, i);
        built := built + [collage];
        i := i + 1;
      }
      AppendCollages(built);
    }

    /** The appends of `build_collages`: collage `i` at the end of key `i`'s list, a missing key skipped. */
    method AppendCollages(built: seq<Image>)
      requires Keyed() && |built| == 4
      modifies this
      ensures Keyed() && keys == old(keys)
      ensures cllimagemap.Keys == old(cllimagemap).Keys
      ensures imageDir == old(imageDir) && imageFile == old(imageFile) && srcfile == old(srcfile)
      ensures forall i :: 0 <= i < 4 ==>
        cllimagemap[keys[i]] == old(cllimagemap)[keys[i]].(images := old(cllimagemap)[keys[i]].images + [built[i]])
    {
      var m := cllimagemap;
      var i := 0;
      while i < 4
        invariant 0 <= i <= 4 && m.Keys == cllimagemap.Keys
        invariant forall j :: 0 <= j < i ==>
          m[keys[j]] == cllimagemap[keys[j]].(images := cllimagemap[keys[j]].images + [built[j]])
        invariant forall j :: i <= j < 4 ==> m[keys[j]] == cllimagemap[keys[j]]
      {
        var cllkey := keys[i];
        if cllkey in m {
          var value := m[cllkey];
          m := m[cllkey := value.(images := value.images + [built[i]])];
        }
        i := i + 1;
      }
      cllimagemap := m;
    }

    /** `mkcllpix`: build the collages, then put each key's display name in its line edit. */
    method MkCllPix(src: Image, inits: seq<Image>)
      requires Keyed() && imageFile.Some?
      requires CanvasesFor(inits, src)
      modifies this
      ensures Keyed() && keys == old(keys)
      ensures cllimagemap.Keys == old(cllimagemap).Keys
      ensures imageDir == old(imageDir) && imageFile == old(imageFile) && srcfile == old(srcfile)
      ensures forall i :: 0 <= i < 4 ==>
        var e := old(cllimagemap)[keys[i]];
        cllimagemap[keys[i]] == Entry(Box(e.box.checked, CllFileName(imageFile.value, keys[i])),
                                      e.images + [WindowCollage(inits[i], src, i)])
    {
      BuildCollages(src, inits);
      NameCollages();
    }

    /** The loop of `mkcllpix`: each key's line edit set to its display name. */
    method NameCollages()
      requires Keyed() && imageFile.Some?
      modifies this
      ensures Keyed() && keys == old(keys)
      ensures cllimagemap.Keys == old(cllimagemap).Keys
      ensures imageDir == old(imageDir) && imageFile == old(imageFile) && srcfile == old(srcfile)
      ensures forall i :: 0 <= i < 4 ==>
        cllimagemap[keys[i]] == old(cllimagemap)[keys[i]].(box :=
          old(cllimagemap)[keys[i]].box.(name := CllFileName(imageFile.value, keys[i])))
    {
      var file, m := imageFile.value, cllimagemap;
      var i := 0;
      while i < 4
        invariant 0 <= i <= 4 && m.Keys == cllimagemap.Keys
        invariant forall j :: 0 <= j < i ==>
          m[keys[j]] == cllimagemap[keys[j]].(box := cllimagemap[keys[j]].box.(name := CllFileName(file, keys[j])))
        invariant forall j :: i <= j < 4 ==> m[keys[j]] == cllimagemap[keys[j]]
      {
        var cllkey := keys[i];
        if cllkey in m {
          var value := m[cllkey];
          var thisCllFile := CllFileName(file, cllkey);
          m := m[cllkey := value.(box := value.box.(name := thisCllFile))];
        }
        i := i + 1;
      }
      cllimagemap := m;
    }

    /**
     * `on_src_clicked` once the dialog returned `chosen`: remember the path,
     * its directory and its file name, and build and name the collages.
     */
    method OnSrcClicked(chosen: string, src: Image, inits: seq<Image>)
      requires Valid()
      requires CanvasesFor(inits, src)
      modifies this
      ensures Valid() && keys == old(keys)
      ensures srcfile == chosen
      ensures imageDir == Some(SplitPath(chosen).0) && imageFile == Some(SplitPath(chosen).1)
      ensures forall i :: 0 <= i < 4 ==>
        var e := old(cllimagemap)[keys[i]];
        cllimagemap[keys[i]] == Entry(Box(e.box.checked, CllFileName(SplitPath(chosen).1, keys[i])),
                                      e.images + [WindowCollage(inits[i], src, i)])
    {
      SetSource(chosen);
      MkCllPix(src, inits);
    }

    /** The assignments of `on_src_clicked`: the chosen path, and its directory and file name as `os.path.split` gives them. */
    method SetSource(chosen: string)
      requires Keyed()
      modifies this
      ensures Keyed() && keys == old(keys) && cllimagemap == old(cllimagemap)
      ensures srcfile == chosen
      ensures imageDir == Some(SplitPath(chosen).0) && imageFile == Some(SplitPath(chosen).1)
    {
      var parts := SplitPath(chosen);
      srcfile, imageDir, imageFile := chosen, Some(parts.0), Some(parts.1);
    }

    /** `save`: the files written, none without a source directory. */
    method Save() returns (writes: seq<Write>)
      requires Valid()
      ensures writes == SavePlan(keys, cllimagemap, imageDir)
    {
      if imageDir.None? {
        return [];
      }
      assert forall key :: key in keys ==> key in cllimagemap && |cllimagemap[key].images| >= 1;
      writes := SaveChecked(keys, cllimagemap);
    }

    /**
     * `reset`: forget the source and clear every line edit; the keys, the
     * checked flags and the collages built so far stay.
     */
    method Reset()
      requires Valid()
      modifies this
      ensures Valid() && keys == old(keys)
      ensures srcfile == "" && imageDir == None && imageFile == None
      ensures cllimagemap.Keys == old(cllimagemap).Keys
      ensures forall i :: 0 <= i < 4 ==>
        cllimagemap[keys[i]] == old(cllimagemap)[keys[i]].(box := old(cllimagemap)[keys[i]].box.(name := ""))
    {
      srcfile := "";
      imageDir, imageFile := None, None;
      ClearNames();
    }

    /** The loop of `reset`: every line edit cleared. */
    method ClearNames()
      requires Keyed()
      modifies this
      ensures Keyed() && keys == old(keys)
      ensures cllimagemap.Keys == old(cllimagemap).Keys
      ensures imageDir == old(imageDir) && imageFile == old(imageFile) && srcfile == old(srcfile)
      ensures forall i :: 0 <= i < 4 ==>
        cllimagemap[keys[i]] == old(cllimagemap)[keys[i]].(box := old(cllimagemap)[keys[i]].box.(name := ""))
    {
      var m := cllimagemap;
      var i := 0;
      while i < 4
        invariant 0 <= i <= 4 && m.Keys == cllimagemap.Keys
        invariant forall j :: 0 <= j < i ==>
          m[keys[j]] == cllimagemap[keys[j]].(box := cllimagemap[keys[j]].box.(name := ""))
        invariant forall j :: i <= j < 4 ==> m[keys[j]] == cllimagemap[keys[j]]
      {
        var cllkey := keys[i];
        var value := m[cllkey];
        m := m[cllkey := value.(box := value.box.(name := ""))];
        i := i + 1;
      }
      cllimagemap := m;
    }
  }
}

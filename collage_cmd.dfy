/**
 * The command-line collage tool: parsing the `-i` index list, choosing
 * between all patterns, the single four-copy tile and a parsed list, and the
 * sequence of files `build_collage` and `tile_one` write.
 */
module CollageCmd {
  import opened Wrappers
  import opened Strings
  import opened Images
  import opened Patterns
  import opened Compositor

  datatype Failure =
    | SourceNotFound            // the image path is not an existing file
    | MalformedIndexSpec        // `int(...)` or `each[0]` raised in `parse_indices`
    | IndexOutOfRange(index: nat)  // `patterns[i]` raised in `build_collage`

  /** The files one run writes, in order, and the error that ended it early, if any. */
  datatype Outcome = Outcome(writes: seq<Write>, failure: Option<Failure>)

  // ---------------------------------------------------------------- indices

  /** `list(range(lo, hi))`. */
  function Range(lo: nat, hi: nat): (r: seq<nat>)
    ensures |r| == if lo < hi then hi - lo else 0
    ensures forall k :: 0 <= k < |r| ==> r[k] == lo + k
    decreases hi - lo
  {
    if lo >= hi then [] else [lo] + Range(lo + 1, hi)
  }

  /** `xs` is every digit from `lo` to `hi` inclusive, in order; empty when `lo > hi`. */
  predicate DigitsFromTo(xs: seq<nat>, lo: nat, hi: nat)
  {
    hi <= 9
    && |xs| == (if lo <= hi then hi - lo + 1 else 0)
    && forall k :: 0 <= k < |xs| ==> xs[k] == lo + k && lo <= xs[k] <= hi
  }

  /**
   * What one comma-separated token contributes: an all-digit token is one
   * index; any other token is the range from its first character's digit to
   * its last character's digit. A token is accepted exactly when its first and
   * last characters are digits, so an empty token fails; a range holds at most
   * the ten single digits, and a reversed one is empty.
   */
  function ParseToken(t: string): (r: Result<seq<nat>, Failure>)
    ensures r.Ok? <==> |t| > 0 && IsDigit(t[0]) && IsDigit(t[|t| - 1])
    ensures r.Err? ==> r.error == MalformedIndexSpec
    ensures IsDigits(t) ==> r == Ok([ParseDecimal(t)])
    ensures r.Ok? && !IsDigits(t) ==> DigitsFromTo(r.value, DigitValue(t[0]), DigitValue(t[|t| - 1]))
  {
    if IsDigits(t) then Ok([ParseDecimal(t)])
    else if |t| > 0 && IsDigit(t[0]) && IsDigit(t[|t| - 1]) then
      Ok(Range(DigitValue(t[0]), DigitValue(t[|t| - 1]) + 1))
    else Err(MalformedIndexSpec)
  }

  /** The results of the tokens, left to right, concatenated; the first failure ends it, and is a malformed specification. */
  function ParseTokens(tokens: seq<string>): (r: Result<seq<nat>, Failure>)
    ensures r.Err? ==> r == Err(MalformedIndexSpec)
  {
    if tokens == [] then Ok([])
    else
      match ParseTokens(tokens[..|tokens| - 1])
      case Err(e) => Err(e)
      case Ok(acc) =>
        match ParseToken(tokens[|tokens| - 1])
        case Err(e) => Err(e)
        case Ok(more) => Ok(acc + more)
  }

  /** `parse_indices(indices)`, as a value: it fails only with a malformed specification. */
  function ParseSpec(indices: string): (r: Result<seq<nat>, Failure>)
    ensures r.Err? ==> r == Err(MalformedIndexSpec)
  {
    ParseTokens(Split(indices, ','))
  }

  /** A failure among the first tokens is a failure of the whole list. */
  lemma {:induction false} ParseTokensErrPrefix(tokens: seq<string>, k: nat)
    requires k <= |tokens| && ParseTokens(tokens[..k]).Err?
    ensures ParseTokens(tokens) == Err(MalformedIndexSpec)
    decreases |tokens| - k
  {
    if k < |tokens| {
      assert tokens[..k + 1][..k] == tokens[..k];
      ParseTokensErrPrefix(tokens, k + 1);
    } else {
      assert tokens[..k] == tokens;
    }
  }

  /** The list parses exactly when every token does. */
  lemma {:induction false} ParseTokensOkIff(tokens: seq<string>)
    ensures ParseTokens(tokens).Ok? <==> forall k :: 0 <= k < |tokens| ==> ParseToken(tokens[k]).Ok?
  {
    if tokens != [] {
      var init := tokens[..|tokens| - 1];
      ParseTokensOkIff(init);
      assert forall k :: 0 <= k < |init| ==> init[k] == tokens[k];
    }
  }

  /** One more token: its result is appended, and a failure of either is the failure. */
  lemma ParseTokensSnoc(tokens: seq<string>, t: string)
    ensures ParseTokens(tokens + [t])
      == if ParseTokens(tokens).Ok? && ParseToken(t).Ok? then Ok(ParseTokens(tokens).value + ParseToken(t).value)
         else Err(MalformedIndexSpec)
  {
    assert (tokens + [t])[..|tokens + [t]| - 1] == tokens;
  }

  /** The tokens of two lists are parsed independently and their results concatenated. */
  lemma {:induction false} ParseTokensAppend(a: seq<string>, b: seq<string>)
    requires ParseTokens(a).Ok? && ParseTokens(b).Ok?
    ensures ParseTokens(a + b) == Ok(ParseTokens(a).value + ParseTokens(b).value)
  {
    if b == [] {
      assert a + b == a;
      assert ParseTokens(a).value + [] == ParseTokens(a).value;
    } else {
      var b0, last := b[..|b| - 1], b[|b| - 1];
      assert b == b0 + [last] && a + b == (a + b0) + [last];
      ParseTokensSnoc(b0, last);
      ParseTokensAppend(a, b0);
      ParseTokensSnoc(a + b0, last);
      var x, y0, more := ParseTokens(a).value, ParseTokens(b0).value, ParseToken(last).value;
      assert (x + y0) + more == x + (y0 + more);
    }
  }

  /**
   * The text before and after a comma are parsed independently, their
   * indices concatenated, duplicates kept; either part failing fails the whole.
   */
  lemma ParseSpecComma(s: string, t: string)
    ensures ParseSpec(s + "," + t).Ok? <==> ParseSpec(s).Ok? && ParseSpec(t).Ok?
    ensures ParseSpec(s + "," + t).Ok? ==>
      ParseSpec(s + "," + t).value == ParseSpec(s).value + ParseSpec(t).value
  {
    SplitConcat(s, t, ',');
    var a, b := Split(s, ','), Split(t, ',');
    ParseTokensOkIff(a);
    ParseTokensOkIff(b);
    ParseTokensOkIff(a + b);
    assert forall k :: 0 <= k < |a| ==> (a + b)[k] == a[k];
    assert forall k :: 0 <= k < |b| ==> (a + b)[|a| + k] == b[k];
    if ParseSpec(s).Ok? && ParseSpec(t).Ok? {
      ParseTokensAppend(a, b);
    }
  }

  /** A text without commas is one token. */
  lemma ParseSpecOneToken(t: string)
    requires ',' !in t
    ensures ParseSpec(t) == ParseToken(t)
  {
    SplitNoSep(t, ',');
    var ts := Split(t, ',');
    assert ts[..|ts| - 1] == [] && ts[|ts| - 1] == t;
    assert ParseTokens(ts[..|ts| - 1]) == Ok([]);
    if ParseToken(t).Ok? {
      assert [] + ParseToken(t).value == ParseToken(t).value;
    }
  }

  /** A one-digit text is that index. */
  lemma ParseSpecDigit(c: char)
    requires IsDigit(c)
    ensures ParseSpec([c]) == Ok([DigitValue(c)])
  {
    ParseSpecOneToken([c]);
    assert IsDigits([c]);
    assert [c][..0] == [];
    assert ParseDecimal([c]) == DigitValue(c);
  }

  /** A text "a-b" of two digits is the range from a to b. */
  lemma ParseSpecDash(a: char, b: char)
    requires IsDigit(a) && IsDigit(b)
    ensures ParseSpec([a, '-', b]) == Ok(Range(DigitValue(a), DigitValue(b) + 1))
  {
    ParseSpecOneToken([a, '-', b]);
    assert !IsDigits([a, '-', b]) by { assert [a, '-', b][1] == '-'; }
  }

  /** Worked case: a list of single indices. */
  lemma ParseSpecListExample()
    ensures ParseSpec("0,2,5") == Ok([0, 2, 5])
  {
    assert "0,2,5" == ['0', ',', '2', ',', '5'];
    ParseSpecThreeDigits('0', '2', '5');
    assert DigitValue('0') == 0 && DigitValue('2') == 2 && DigitValue('5') == 5;
  }

  /** Three single digits separated by commas are those three indices. */
  lemma ParseSpecThreeDigits(a: char, b: char, c: char)
    requires IsDigit(a) && IsDigit(b) && IsDigit(c)
    ensures ParseSpec([a, ',', b, ',', c]) == Ok([DigitValue(a), DigitValue(b), DigitValue(c)])
  {
    assert [a, ',', b, ',', c] == [a] + "," + [b, ',', c] && [b, ',', c] == [b] + "," + [c];
    ParseSpecDigit(a); ParseSpecDigit(b); ParseSpecDigit(c);
    ParseSpecComma([b], [c]);
    ParseSpecComma([a], [b, ',', c]);
    assert [DigitValue(a)] + ([DigitValue(b)] + [DigitValue(c)]) == [DigitValue(a), DigitValue(b), DigitValue(c)];
  }

  /** Worked case: a single index before a range. */
  lemma ParseSpecMixedExample()
    ensures ParseSpec("7,0-1") == Ok([7, 0, 1])
  {
    assert "7,0-1" == "7" + "," + "0-1";
    ParseSpecDigit('7');
    ParseSpecDash('0', '1');
    assert "7" == ['7'] && "0-1" == ['0', '-', '1'];
    assert DigitValue('7') == 7 && DigitValue('0') == 0 && DigitValue('1') == 1;
    assert Range(0, 2) == [0, 1];
    ParseSpecComma("7", "0-1");
    assert [7] + [0, 1] == [7, 0, 1];
  }

  /** Worked cases: ranges run from the first to the last character's digit, a reversed range is empty. */
  lemma ParseSpecRangeExamples()
    ensures ParseSpec("0-3") == Ok([0, 1, 2, 3])
    ensures ParseSpec("3-1") == Ok([])
  {
    ParseSpecDash('0', '3');
    ParseSpecDash('3', '1');
    assert Range(0, 4) == [0, 1, 2, 3];
  }

  /** Worked case: an all-digit token is one index however long. */
  lemma ParseSpecTwelve()
    ensures ParseSpec("12") == Ok([12])
  {
    ParseSpecOneToken("12");
    assert IsDigits("12") && ParseDecimal("12") == 12 by { assert "12"[..1] == "1"; }
  }

  /** Worked case: any other token uses its end digits only. */
  lemma ParseSpecTenToTwelve()
    ensures ParseSpec("10-12") == Ok([1, 2])
  {
    ParseSpecOneToken("10-12");
    assert !IsDigits("10-12") by { assert "10-12"[2] == '-'; }
    assert Range(1, 3) == [1, 2];
  }

  /** Worked cases: a letter, and an empty token between two commas, are malformed. */
  lemma ParseSpecMalformedExamples()
    ensures ParseSpec("x").Err?
    ensures ParseSpec("1,,2").Err?
  {
    assert ',' !in "x" && ',' !in "" && ',' !in "1" && ',' !in "2";
    ParseSpecOneToken("x"); ParseSpecOneToken("");
    assert "1,,2" == "1" + "," + ",2" && ",2" == "" + "," + "2";
    ParseSpecComma("", "2");
    ParseSpecComma("1", ",2");
  }

  /** `parse_indices`: split at commas, then append or extend token by token. */
  method ParseIndices(indices: string) returns (r: Result<seq<nat>, Failure>)
    ensures r == ParseSpec(indices)
  {
    var inxList := Split(indices, ',');
    var patternIndices: seq<nat> := [];
    var k := 0;
    while k < |inxList|
      invariant 0 <= k <= |inxList|
      invariant ParseTokens(inxList[..k]) == Ok(patternIndices)
    {
      var each := inxList[k];
      assert inxList[..k + 1] == inxList[..k] + [each];
      ParseTokensSnoc(inxList[..k], each);
      if IsDigits(each) {
        patternIndices := patternIndices + [ParseDecimal(each)];
      } else if |each| > 0 && IsDigit(each[0]) && IsDigit(each[|each| - 1]) {
        patternIndices := patternIndices + Range(DigitValue(each[0]), DigitValue(each[|each| - 1]) + 1);
      } else {
        ParseTokensErrPrefix(inxList, k + 1);
        return Err(MalformedIndexSpec);
      }
      k := k + 1;
    }
    assert inxList[..k] == inxList;
    r := Ok(patternIndices);
  }

  // ------------------------------------------------------------------ names

  /** `os.path.splitext(image_file)[0]`. */
  function Base(file: string): string { SplitExt(file).0 }

  /** `os.path.splitext(image_file)[1]`. */
  function Ext(file: string): string { SplitExt(file).1 }

  /** `f'{parts[0]}_{tag}{parts[1]}'` for the mirror images: `_` and the tag inserted before the extension. */
  function MirrorFileName(file: string, tag: string): (r: string)
    ensures |r| == |file| + 1 + |tag|
  {
    Base(file) + "_" + tag + Ext(file)
  }

  /** A mirror name is the source's name with `_` and the tag spliced in before the extension: cutting them out gives the name back. */
  lemma MirrorFileNameSplice(file: string, tag: string)
    ensures var r, n := MirrorFileName(file, tag), |Base(file)|;
      n + 1 + |tag| <= |r| && r[n..n + 1 + |tag|] == "_" + tag && r[..n] + r[n + 1 + |tag|..] == file
  {
    var r, n := MirrorFileName(file, tag), |Base(file)|;
    assert r == Base(file) + ("_" + tag) + Ext(file);
    assert r[..n] == Base(file) && r[n + 1 + |tag|..] == Ext(file);
  }

  /** `f"{parts[0]}_CLL{i}.jpg"`: the base name, then `_CLL`, the index and `.jpg` whatever the source's extension. */
  function CollageFileName(file: string, i: nat): (r: string)
    ensures Base(file) + "_CLL" <= r
    ensures |r| >= 4 && r[|r| - 4..] == ".jpg"
  {
    Base(file) + "_CLL" + NatToString(i) + ".jpg"
  }

  /** `f"{parts[0]}_tile.jpg"`. */
  function TileFileName(file: string): (r: string)
    ensures Base(file) <= r
    ensures |r| >= 4 && r[|r| - 4..] == ".jpg"
  {
    Base(file) + "_tile.jpg"
  }

  /** Two indices share a collage file name exactly when they are equal, whatever the source's extension. */
  lemma CollageFileNameInjective(file: string, i: nat, j: nat)
    ensures CollageFileName(file, i) == CollageFileName(file, j) <==> i == j
  {
    if CollageFileName(file, i) == CollageFileName(file, j) {
      var b := Base(file) + "_CLL";
      var si, sj := NatToString(i), NatToString(j);
      assert |si| == |sj|;
      assert (b + si + ".jpg")[|b|..|b| + |si|] == si;
      assert (b + sj + ".jpg")[|b|..|b| + |sj|] == sj;
      NatToStringInjective(i, j);
    }
  }

  /** A mirror file never has the name of a collage file or of the tile file. */
  lemma MirrorFileNameDistinct(file: string, tag: string, i: nat)
    requires tag == "H" || tag == "V" || tag == "HV"
    ensures MirrorFileName(file, tag) != CollageFileName(file, i)
    ensures MirrorFileName(file, tag) != TileFileName(file)
  {
    var n := |Base(file)| + 1;
    assert MirrorFileName(file, tag)[n] == tag[0];
    assert CollageFileName(file, i)[n] == 'C';
    assert TileFileName(file)[n] == 't';
  }

  /** The three mirror files have three different names. */
  lemma MirrorFileNamesDistinct(file: string)
    ensures MirrorFileName(file, "H") != MirrorFileName(file, "V")
    ensures MirrorFileName(file, "H") != MirrorFileName(file, "HV")
    ensures MirrorFileName(file, "V") != MirrorFileName(file, "HV")
  {
    var n := |Base(file)| + 1;
    assert MirrorFileName(file, "H")[n] == 'H' && MirrorFileName(file, "V")[n] == 'V';
    assert |MirrorFileName(file, "HV")| == |MirrorFileName(file, "H")| + 1 == |MirrorFileName(file, "V")| + 1;
  }

  /** The names of a source called "photo.png". */
  lemma NamesOfPhotoPng()
    ensures MirrorFileName("photo.png", "H") == "photo_H.png"
    ensures CollageFileName("photo.png", 3) == "photo_CLL3.jpg"
  {
    assert LastIndex("photo.png", '.') == 5;
    assert "photo.png"[..5] == "photo" && "photo.png"[5..] == ".png";
    assert !AllSame("photo", '.') by { assert "photo"[0] != '.'; }
    assert SplitExt("photo.png") == ("photo", ".png");
    assert NatToString(3) == "3";
  }

  // ------------------------------------------------------------ the writes

  /** The three mirror images, saved before any collage when more than one index is given. */
  function MirrorWrites(file: string, src: Image): (ws: seq<Write>)
    requires IsImage(src)
    ensures |ws| == 3 && forall k :: 0 <= k < 3 ==> HasSize(ws[k].image, Width(src), Height(src))
  {
    [Write(MirrorFileName(file, "H"), Apply(H, src)),
     Write(MirrorFileName(file, "V"), Apply(V, src)),
     Write(MirrorFileName(file, "HV"), Apply(HV, src))]
  }

  /**
   * The loop over the indices of `build_collage`: each index draws its
   * pattern over whatever the shared canvas holds and saves the canvas; an
   * index past the table raises there.
   */
  function IndexWrites(file: string, src: Image, canvas: Image, indices: seq<nat>): (out: Outcome)
    requires CanvasForSource(canvas, src)
    ensures |out.writes| <= |indices|
    ensures out.failure.Some? ==> out.failure.value.IndexOutOfRange? && out.failure.value.index >= 8
    ensures out.failure.None? ==> |out.writes| == |indices|
    decreases |indices|
  {
    if indices == [] then Outcome([], None)
    else
      match PatternAt(indices[0])
      case None => Outcome([], Some(IndexOutOfRange(indices[0])))
      case Some(p) =>
        var drawn := Collage(canvas, Tiles(p, src));
        var rest := IndexWrites(file, src, drawn, indices[1..]);
        Outcome([Write(CollageFileName(file, indices[0]), drawn)] + rest.writes, rest.failure)
  }

  /** One step of the loop over the indices. */
  lemma IndexWritesStep(file: string, src: Image, canvas: Image, indices: seq<nat>, k: nat)
    requires CanvasForSource(canvas, src) && k < |indices|
    ensures indices[k] < 8 ==>
      var drawn := Collage(canvas, Tiles(CliPatterns[indices[k]], src));
      var rest := IndexWrites(file, src, drawn, indices[k + 1..]);
      IndexWrites(file, src, canvas, indices[k..])
        == Outcome([Write(CollageFileName(file, indices[k]), drawn)] + rest.writes, rest.failure)
    ensures indices[k] >= 8 ==>
      IndexWrites(file, src, canvas, indices[k..]) == Outcome([], Some(IndexOutOfRange(indices[k])))
  {
    assert indices[k..][0] == indices[k] && indices[k..][1..] == indices[k + 1..];
  }

  /** Everything `build_collage` saves, in order. */
  function CollagePlan(file: string, src: Image, indices: seq<nat>, init: Image): (out: Outcome)
    requires CanvasForSource(init, src)
    ensures out.failure.None? ==> |out.writes| == (if |indices| > 1 then 3 else 0) + |indices|
    ensures out.failure.Some? ==> out.failure.value.IndexOutOfRange?
  {
    var rest := IndexWrites(file, src, init, indices);
    Outcome((if |indices| > 1 then MirrorWrites(file, src) else []) + rest.writes, rest.failure)
  }

  /** How many indices, from the front, are in the table. */
  function ValidPrefix(indices: seq<nat>): (n: nat)
    ensures n <= |indices|
    ensures forall j :: 0 <= j < n ==> indices[j] < 8
    ensures n < |indices| ==> indices[n] >= 8
  {
    if indices == [] || indices[0] >= 8 then 0 else 1 + ValidPrefix(indices[1..])
  }

  /**
   * The collage saved for an index is its pattern drawn on the canvas as it
   * was first allocated, whatever earlier indices drew on it; the writes stop
   * at the first index past the table, which is the failure.
   */
  lemma {:induction false} IndexWritesClosedForm(file: string, src: Image, canvas: Image, indices: seq<nat>)
    requires CanvasForSource(canvas, src)
    ensures var out, n := IndexWrites(file, src, canvas, indices), ValidPrefix(indices);
      |out.writes| == n
      && (forall j :: 0 <= j < n ==>
            out.writes[j] == Write(CollageFileName(file, indices[j]), Collage(canvas, Tiles(CliPatterns[indices[j]], src))))
      && out.failure == (if n < |indices| then Some(IndexOutOfRange(indices[n])) else None)
    decreases |indices|
  {
    if indices != [] && indices[0] < 8 {
      var tiles := Tiles(CliPatterns[indices[0]], src);
      IndexWritesStep(file, src, canvas, indices, 0);
      assert indices[0..] == indices;
      IndexWritesAbsorb(file, src, canvas, tiles, indices[1..]);
      IndexWritesClosedForm(file, src, canvas, indices[1..]);
      var first := Write(CollageFileName(file, indices[0]), Collage(canvas, tiles));
      var out, rest := IndexWrites(file, src, canvas, indices), IndexWrites(file, src, canvas, indices[1..]);
      assert out == Outcome([first] + rest.writes, rest.failure);
      var n := ValidPrefix(indices);
      assert n == 1 + ValidPrefix(indices[1..]);
      forall j | 0 <= j < n
        ensures out.writes[j] == Write(CollageFileName(file, indices[j]), Collage(canvas, Tiles(CliPatterns[indices[j]], src)))
      {
        if j > 0 {
          assert out.writes[j] == rest.writes[j - 1] && indices[1..][j - 1] == indices[j];
        }
      }
    }
  }

  /** What a collage left on the shared canvas makes no difference to the indices after it. */
  lemma IndexWritesAbsorb(file: string, src: Image, canvas: Image, earlier: seq<Image>, indices: seq<nat>)
    requires CanvasForSource(canvas, src) && CanvasFor(canvas, earlier)
    ensures CanvasForSource(Collage(canvas, earlier), src)
    ensures IndexWrites(file, src, Collage(canvas, earlier), indices) == IndexWrites(file, src, canvas, indices)
  {
    if indices != [] && indices[0] < 8 {
      RedrawAbsorbs(canvas, earlier, Tiles(CliPatterns[indices[0]], src));
    }
  }

  /**
   * The files `build_collage` writes: the H, V and HV mirror images first, in
   * that order, exactly when more than one index is given; then one
   * `{base}_CLL{i}.jpg` per index, in index order, up to the first index past
   * the table, which ends the run with `IndexOutOfRange`.
   */
  lemma CollagePlanShape(file: string, src: Image, indices: seq<nat>, init: Image)
    requires CanvasForSource(init, src)
    ensures var out, m, n := CollagePlan(file, src, indices, init), (if |indices| > 1 then 3 else 0), ValidPrefix(indices);
      |out.writes| == m + n
      && (|indices| > 1 ==>
            out.writes[0] == Write(MirrorFileName(file, "H"), Mirrored(src, true, false))
            && out.writes[1] == Write(MirrorFileName(file, "V"), Mirrored(src, false, true))
            && out.writes[2] == Write(MirrorFileName(file, "HV"), Mirrored(src, true, true)))
      && (forall j :: 0 <= j < n ==>
            out.writes[m + j] == Write(CollageFileName(file, indices[j]), Collage(init, Tiles(CliPatterns[indices[j]], src))))
      && out.failure == (if n < |indices| then Some(IndexOutOfRange(indices[n])) else None)
  {
    IndexWritesClosedForm(file, src, init, indices);
  }

  /** A mirror file is written exactly when more than one index is given. */
  lemma MirrorFilesIff(file: string, src: Image, indices: seq<nat>, init: Image, tag: string)
    requires CanvasForSource(init, src)
    requires tag == "H" || tag == "V" || tag == "HV"
    ensures (exists k :: 0 <= k < |CollagePlan(file, src, indices, init).writes|
               && CollagePlan(file, src, indices, init).writes[k].name == MirrorFileName(file, tag))
            <==> |indices| > 1
  {
    var out := CollagePlan(file, src, indices, init);
    CollagePlanShape(file, src, indices, init);
    var m := if |indices| > 1 then 3 else 0;
    if |indices| > 1 {
      var k := if tag == "H" then 0 else if tag == "V" then 1 else 2;
      assert out.writes[k].name == MirrorFileName(file, tag);
    } else {
      forall k | 0 <= k < |out.writes|
        ensures out.writes[k].name != MirrorFileName(file, tag)
      {
        MirrorFileNameDistinct(file, tag, indices[k]);
      }
    }
  }

  /** `build_collage`: the mirror files, then one shared canvas redrawn and saved per index. */
  method BuildCollage(file: string, src: Image, indices: seq<nat>, init: Image) returns (out: Outcome)
    requires CanvasForSource(init, src)
    ensures out == CollagePlan(file, src, indices, init)
  {
    var writes: seq<Write> := [];
    if |indices| > 1 {
      writes := writes + [Write(MirrorFileName(file, "H"), Mirrored(src, true, false))];
      writes := writes + [Write(MirrorFileName(file, "V"), Mirrored(src, false, true))];
      writes := writes + [Write(MirrorFileName(file, "HV"), Mirrored(src, true, true))];
    }
    assert writes == if |indices| > 1 then MirrorWrites(file, src) else [];
    var rest := SaveCollages(file, src, indices, init);
    out := Outcome(writes + rest.writes, rest.failure);
  }

  /** The loop of `build_collage`: per index, its pattern drawn over the shared canvas, which is then saved. */
  method SaveCollages(file: string, src: Image, indices: seq<nat>, init: Image) returns (out: Outcome)
    requires CanvasForSource(init, src)
    ensures out == IndexWrites(file, src, init, indices)
  {
    var writes: seq<Write> := [];
    var target := NewCanvas(init);
    ghost var canvas := init;
    var k := 0;
    while k < |indices|
      invariant 0 <= k <= |indices|
      invariant Grid(target) == canvas && CanvasForSource(canvas, src)
      invariant IndexWritesFrom(file, src, init, indices, canvas, k, writes)
    {
      var i := indices[k];
      if i >= |CliPatterns| {
        IndexWritesStop(file, src, init, indices, canvas, k, writes);
        return Outcome(writes, Some(IndexOutOfRange(i)));
      }
      var tiles := Tiles(CliPatterns[i], src);
      IndexWritesAdvance(file, src, init, indices, canvas, k, writes);
      Compose(target, tiles);
      canvas := Collage(canvas, tiles);
      writes := writes + [Write(CollageFileName(file, i), Grid(target))];
      k := k + 1;
    }
    IndexWritesDone(file, src, init, indices, canvas, writes);
    out := Outcome(writes, None);
  }

  /** The loop's invariant: the writes so far, then what the rest of the indices write on the canvas as it now is, are the whole plan. */
  ghost predicate IndexWritesFrom(file: string, src: Image, init: Image, indices: seq<nat>, canvas: Image, k: nat, writes: seq<Write>)
    requires CanvasForSource(init, src) && CanvasForSource(canvas, src) && k <= |indices|
  {
    var rest := IndexWrites(file, src, canvas, indices[k..]);
    IndexWrites(file, src, init, indices) == Outcome(writes + rest.writes, rest.failure)
  }

  /** An index in the table adds its collage, drawn on the current canvas, to the writes. */
  lemma IndexWritesAdvance(file: string, src: Image, init: Image, indices: seq<nat>, canvas: Image, k: nat, writes: seq<Write>)
    requires CanvasForSource(init, src) && CanvasForSource(canvas, src) && k < |indices| && indices[k] < 8
    requires IndexWritesFrom(file, src, init, indices, canvas, k, writes)
    ensures var drawn := Collage(canvas, Tiles(CliPatterns[indices[k]], src));
      CanvasForSource(drawn, src)
      && IndexWritesFrom(file, src, init, indices, drawn, k + 1, writes + [Write(CollageFileName(file, indices[k]), drawn)])
  {
    var drawn := Collage(canvas, Tiles(CliPatterns[indices[k]], src));
    IndexWritesStep(file, src, canvas, indices, k);
    var rest := IndexWrites(file, src, drawn, indices[k + 1..]);
    assert writes + ([Write(CollageFileName(file, indices[k]), drawn)] + rest.writes)
      == (writes + [Write(CollageFileName(file, indices[k]), drawn)]) + rest.writes;
  }

  /** An index past the table ends the writes there. */
  lemma IndexWritesStop(file: string, src: Image, init: Image, indices: seq<nat>, canvas: Image, k: nat, writes: seq<Write>)
    requires CanvasForSource(init, src) && CanvasForSource(canvas, src) && k < |indices| && indices[k] >= 8
    requires IndexWritesFrom(file, src, init, indices, canvas, k, writes)
    ensures IndexWrites(file, src, init, indices) == Outcome(writes, Some(IndexOutOfRange(indices[k])))
  {
    IndexWritesStep(file, src, canvas, indices, k);
    assert writes + [] == writes;
  }

  /** With every index done, the writes so far are the whole plan. */
  lemma IndexWritesDone(file: string, src: Image, init: Image, indices: seq<nat>, canvas: Image, writes: seq<Write>)
    requires CanvasForSource(init, src) && CanvasForSource(canvas, src)
    requires IndexWritesFrom(file, src, init, indices, canvas, |indices|, writes)
    ensures IndexWrites(file, src, init, indices) == Outcome(writes, None)
  {
    assert indices[|indices|..] == [];
    assert writes + [] == writes;
  }

  /** Everything `tile_one` saves: the source drawn in all four slots, as `{base}_tile.jpg`. */
  function TilePlan(file: string, src: Image, init: Image): (out: Outcome)
    requires CanvasForSource(init, src)
    ensures out.failure == None && |out.writes| == 1
    ensures HasSize(out.writes[0].image, 2 * Width(src), 2 * Height(src))
  {
    Outcome([Write(TileFileName(file), Collage(init, [src, src, src, src]))], None)
  }

  /** `tile_one`: one canvas, the source drawn four times, one save. */
  method TileOne(file: string, src: Image, init: Image) returns (out: Outcome)
    requires CanvasForSource(init, src)
    ensures out == TilePlan(file, src, init)
  {
    var w, h := Width(src), Height(src);
    var target := NewCanvas(init);
    DrawAt(target, src, 0, 0);
    DrawAt(target, src, w - 1, 0);
    DrawAt(target, src, 0, h - 1);
    DrawAt(target, src, w - 1, h - 1);
    out := Outcome([Write(TileFileName(file), Grid(target))], None);
  }

  /**
   * The single tile is the collage pattern 4 would give on the same canvas,
   * saved under a name no index uses, and without mirror files.
   */
  lemma TileIsPattern4(file: string, src: Image, init: Image, i: nat)
    requires CanvasForSource(init, src)
    ensures |TilePlan(file, src, init).writes| == 1
    ensures TilePlan(file, src, init).writes[0].image == Collage(init, Tiles(CliPatterns[4], src))
    ensures TilePlan(file, src, init).writes[0].name != CollageFileName(file, i)
  {
    MirroredNeither(src);
    assert Tiles(CliPatterns[4], src) == [src, src, src, src];
    var n := |Base(file)| + 1;
    assert TileFileName(file)[n] == 't' && CollageFileName(file, i)[n] == 'C';
  }

  /**
   * Index 0 alone writes one file, `{base}_CLL0.jpg`, which shows the source
   * whole at the top left and its both-ways mirror whole at the bottom right.
   */
  lemma SingleIndexZero(file: string, src: Image, init: Image)
    requires CanvasForSource(init, src)
    ensures var out := CollagePlan(file, src, [0], init);
      out.failure == None && |out.writes| == 1 && out.writes[0].name == CollageFileName(file, 0)
      && ShowsWhole(out.writes[0].image, src, 0, 0)
      && ShowsWhole(out.writes[0].image, Mirrored(src, true, true), Width(src) - 1, Height(src) - 1)
  {
    CollagePlanShape(file, src, [0], init);
    assert ValidPrefix([0]) == 1;
    PatternZeroCorners(src, init);
  }

  /** Pattern 0 shows the source whole at the top left and its both-ways mirror whole at the bottom right. */
  lemma PatternZeroCorners(src: Image, init: Image)
    requires CanvasForSource(init, src)
    ensures var img := Collage(init, Tiles(CliPatterns[0], src));
      ShowsWhole(img, src, 0, 0) && ShowsWhole(img, Mirrored(src, true, true), Width(src) - 1, Height(src) - 1)
  {
    var tiles := Tiles(CliPatterns[0], src);
    var w, h := Width(src), Height(src);
    MirrorPatternSeamed(CliPatterns[0], src);
    CollageShows(init, tiles);
    SeamedQuadrantWhole(Collage(init, tiles), init, tiles, 0);
    SeamedQuadrantWhole(Collage(init, tiles), init, tiles, 3);
    assert tiles[0] == src && tiles[3] == Mirrored(src, true, true);
    assert CornerX(0, w) == 0 && CornerY(0, h) == 0 && CornerX(3, w) == w - 1 && CornerY(3, h) == h - 1;
  }

  /** `__main__` after the arguments are read: which files a run writes. */
  method Run(imagePath: string, isFile: bool, patterns: Option<string>, src: Image, init: Image)
    returns (out: Outcome)
    requires CanvasForSource(init, src)
    ensures !isFile ==> out == Outcome([], Some(SourceNotFound))
    ensures isFile && patterns.None? ==>
      out == CollagePlan(FileName(imagePath), src, Range(0, 8), init)
    ensures isFile && patterns == Some("4") ==> out == TilePlan(FileName(imagePath), src, init)
    ensures isFile && patterns.Some? && patterns.value != "4" ==>
      out == match ParseSpec(patterns.value)
             case Err(e) => Outcome([], Some(e))
             case Ok(indices) => CollagePlan(FileName(imagePath), src, indices, init)
  {
    if !isFile {
      return Outcome([], Some(SourceNotFound));
    }
    var imageFile := FileName(imagePath);
    if patterns.None? {
      out := BuildCollage(imageFile, src, Range(0, 8), init);
    } else if patterns.value == "4" {
      out := TileOne(imageFile, src, init);
    } else {
      var parsed := ParseIndices(patterns.value);
      match parsed
      case Err(e) => out := Outcome([], Some(e));
      case Ok(indices) => out := BuildCollage(imageFile, src, indices, init);
    }
  }
}

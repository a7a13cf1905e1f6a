/**
  The filename-keyed texture lookup of the bottle scene (`retrieveTexture`).

  A texture is known by its `name`, which for a texture created from a URL is
  that URL. The lookup takes the part of the name after the last `/`, splits
  it on `_`, and returns the first texture whose piece 0 is the requested
  material name and whose piece 1 is the requested channel followed by ".png".
 */
module TextureLookup {

  datatype Option<+T> = None | Some(value: T)

  /** A loaded image texture; its name is the URL it was fetched from. */
  datatype Texture = Texture(name: string)

  /** JavaScript's `s.split(sep)` for a one-character separator. */
  function Split(s: string, sep: char): (pieces: seq<string>)
    ensures |pieces| >= 1
    ensures forall k :: 0 <= k < |pieces| ==> sep !in pieces[k]
    decreases |s|
  {
    if s == [] then [[]]
    else
      var rest := Split(s[1..], sep);
      if s[0] == sep then [[]] + rest
      else [[s[0]] + rest[0]] + rest[1..]
  }

  /** JavaScript's `pieces.join(sep)`, the inverse of `Split`. */
  function Join(pieces: seq<string>, sep: char): string
    requires |pieces| >= 1
    decreases |pieces|
  {
    if |pieces| == 1 then pieces[0] else pieces[0] + [sep] + Join(pieces[1..], sep)
  }

  /** JavaScript's `pieces[k]`: `undefined` (here `None`) past the end. */
  function PieceAt(pieces: seq<string>, k: nat): Option<string>
  {
    if k < |pieces| then Some(pieces[k]) else None
  }

  /** The last `/`-separated segment of a texture name: its file name. */
  function LastSegment(name: string): (segment: string)
    ensures '/' !in segment
  {
    var segments := Split(name, '/');
    segments[|segments| - 1]
  }

  /**
    The test `retrieveTexture` applies to one texture name: piece 0 of the
    file name equals `meshMat` and piece 1 equals `channel + ".png"`.
   */
  predicate Matches(name: string, meshMat: string, channel: string)
  {
    var pieces := Split(LastSegment(name), '_');
    pieces[0] == meshMat && PieceAt(pieces, 1) == Some(channel + ".png")
  }

  /** The position of the first texture that matches, if any. */
  function RetrieveIndex(meshMat: string, channel: string, textures: seq<Texture>): (r: Option<nat>)
    ensures r.Some? ==> r.value < |textures| && Matches(textures[r.value].name, meshMat, channel)
    ensures r.Some? ==> forall j :: 0 <= j < r.value ==> !Matches(textures[j].name, meshMat, channel)
    ensures r.None? <==> forall j :: 0 <= j < |textures| ==> !Matches(textures[j].name, meshMat, channel)
    decreases |textures|
  {
    if textures == [] then None
    else if Matches(textures[0].name, meshMat, channel) then Some(0)
    else
      match RetrieveIndex(meshMat, channel, textures[1..])
      case None => None
      case Some(k) => Some(k + 1)
  }

  /** `retrieveTexture(meshMat, channel, textures)`: the first matching texture, or nothing. */
  function RetrieveTexture(meshMat: string, channel: string, textures: seq<Texture>): (r: Option<Texture>)
    ensures r.Some? ==> r.value in textures && Matches(r.value.name, meshMat, channel)
    ensures r.Some? <==> exists j :: 0 <= j < |textures| && Matches(textures[j].name, meshMat, channel)
    ensures r.Some? ==> exists k :: 0 <= k < |textures| && textures[k] == r.value
                           && forall j :: 0 <= j < k ==> !Matches(textures[j].name, meshMat, channel)
  {
    match RetrieveIndex(meshMat, channel, textures)
    case None => None
    case Some(k) => Some(textures[k])
  }

  // ---------------------------------------------------------------------------
  // Split and Join

  lemma JoinConsHead(c: char, pieces: seq<string>, sep: char)
    requires |pieces| >= 1
    ensures Join([[c] + pieces[0]] + pieces[1..], sep) == [c] + Join(pieces, sep)
  {
    var p := [[c] + pieces[0]] + pieces[1..];
    if |pieces| > 1 {
      assert p[1..] == pieces[1..];
    }
  }

  /** Joining the pieces of a split gives back the original string. */
  lemma {:induction false} SplitJoin(s: string, sep: char)
    ensures Join(Split(s, sep), sep) == s
    decreases |s|
  {
    if s != [] {
      SplitJoin(s[1..], sep);
      var rest := Split(s[1..], sep);
      if s[0] == sep {
        assert ([[]] + rest)[1..] == rest;
        assert s == [sep] + s[1..];
      } else {
        JoinConsHead(s[0], rest, sep);
        assert s == [s[0]] + s[1..];
      }
    }
  }

  /** A string without the separator splits into itself alone. */
  lemma {:induction false} SplitNoSeparator(s: string, sep: char)
    requires sep !in s
    ensures Split(s, sep) == [s]
    decreases |s|
  {
    if s != [] {
      assert sep !in s[1..] by {
        forall k | 0 <= k < |s[1..]| ensures s[1..][k] != sep { assert s[1..][k] == s[k + 1]; }
      }
      SplitNoSeparator(s[1..], sep);
      assert [s[0]] + s[1..] == s;
    }
  }

  /** Splitting at a separator concatenates the pieces of both sides. */
  lemma {:induction false} SplitConcat(a: string, b: string, sep: char)
    ensures Split(a + [sep] + b, sep) == Split(a, sep) + Split(b, sep)
    decreases |a|
  {
    var s := a + [sep] + b;
    if a == [] {
      assert s == [sep] + b;
      SplitCons(sep, b, sep);
    } else {
      assert s == [a[0]] + (a[1..] + [sep] + b);
      assert a == [a[0]] + a[1..];
      SplitConcat(a[1..], b, sep);
      SplitCons(a[0], a[1..] + [sep] + b, sep);
      SplitCons(a[0], a[1..], sep);
    }
  }

  /** How `Split` treats the first character of a string. */
  lemma SplitCons(c: char, t: string, sep: char)
    ensures Split([c] + t, sep) ==
      if c == sep then [[]] + Split(t, sep)
      else [[c] + Split(t, sep)[0]] + Split(t, sep)[1..]
  {
    assert ([c] + t)[1..] == t;
  }

  /** Pieces without the separator are recovered by splitting their join. */
  lemma {:induction false} JoinSplit(pieces: seq<string>, sep: char)
    requires |pieces| >= 1
    requires forall k :: 0 <= k < |pieces| ==> sep !in pieces[k]
    ensures Split(Join(pieces, sep), sep) == pieces
    decreases |pieces|
  {
    SplitNoSeparator(pieces[0], sep);
    if |pieces| > 1 {
      JoinSplit(pieces[1..], sep);
      SplitConcat(pieces[0], Join(pieces[1..], sep), sep);
      assert [pieces[0]] + pieces[1..] == pieces;
    }
  }

  /** `"a_b_c.png"` splits into three pieces; a name without `_` has no piece 1. */
  lemma SplitExamples()
    ensures Split("a_b_c.png", '_') == ["a", "b", "c.png"]
    ensures PieceAt(Split("thickness.png", '_'), 1) == None
  {
    var pieces := ["a", "b", "c.png"];
    assert Join(pieces, '_') == "a_b_c.png";
    JoinSplit(pieces, '_');
    SplitNoSeparator("thickness.png", '_');
  }

  // ---------------------------------------------------------------------------
  // The file name of a texture

  lemma {:induction false} JoinEndsWithLast(pieces: seq<string>, sep: char)
    requires |pieces| >= 1
    ensures |pieces[|pieces| - 1]| <= |Join(pieces, sep)|
    ensures var last := pieces[|pieces| - 1]; var j := Join(pieces, sep);
      j[|j| - |last|..] == last && (|last| == |j| || j[|j| - |last| - 1] == sep)
    decreases |pieces|
  {
    if |pieces| > 1 {
      JoinEndsWithLast(pieces[1..], sep);
      var last := pieces[|pieces| - 1];
      var tail := Join(pieces[1..], sep);
      var j := Join(pieces, sep);
      assert j == (pieces[0] + [sep]) + tail;
      assert pieces[1..][|pieces[1..]| - 1] == last;
      assert j[|j| - |last|..] == tail[|tail| - |last|..];
      if |last| == |tail| {
        assert j[|j| - |last| - 1] == sep;
      } else {
        assert j[|j| - |last| - 1] == tail[|tail| - |last| - 1];
      }
    }
  }

  /**
    The last segment is the part of the name after its final `/`: a suffix
    with no `/` in it, and either the whole name or preceded by a `/`.
   */
  lemma LastSegmentIsFileName(name: string)
    ensures var seg := LastSegment(name);
      |seg| <= |name| && name[|name| - |seg|..] == seg && '/' !in seg &&
      (|seg| == |name| || name[|name| - |seg| - 1] == '/')
  {
    SplitJoin(name, '/');
    JoinEndsWithLast(Split(name, '/'), '/');
  }

  /** Directory components of a texture URL never change its file name. */
  lemma LastSegmentIgnoresDirectory(dir: string, file: string)
    ensures LastSegment(dir + "/" + file) == LastSegment(file)
  {
    SplitConcat(dir, file, '/');
    assert dir + "/" + file == dir + ['/'] + file;
  }

  /** Only the file name decides whether a texture matches. */
  lemma MatchesIgnoresDirectory(dir: string, file: string, meshMat: string, channel: string)
    ensures Matches(dir + "/" + file, meshMat, channel) == Matches(file, meshMat, channel)
  {
    LastSegmentIgnoresDirectory(dir, file);
  }

  /** A matching name has the file name `meshMat_channel.png`, possibly followed by `_` and more. */
  lemma MatchedFileName(name: string, meshMat: string, channel: string)
    requires Matches(name, meshMat, channel)
    ensures var seg := LastSegment(name); var stem := meshMat + "_" + channel + ".png";
      '_' !in meshMat && '_' !in channel && (seg == stem || stem + "_" <= seg)
  {
    var seg := LastSegment(name);
    var stem := meshMat + "_" + channel + ".png";
    var file := channel + ".png";
    var pieces := Split(seg, '_');
    assert stem == meshMat + ['_'] + file;
    SplitJoin(seg, '_');
    assert pieces[0] == meshMat && pieces[1] == file;
    assert '_' !in channel by {
      forall k | 0 <= k < |channel| ensures channel[k] != '_' { assert file[k] == channel[k]; }
    }
    if |pieces| == 2 {
      assert Join(pieces[1..], '_') == file;
    } else {
      assert Join(pieces[1..], '_') == file + ['_'] + Join(pieces[2..], '_');
      assert seg == stem + ['_'] + Join(pieces[2..], '_');
    }
  }

  /** Every file name of that form matches. */
  lemma FileNameMatched(name: string, meshMat: string, channel: string)
    requires var seg := LastSegment(name); var stem := meshMat + "_" + channel + ".png";
      '_' !in meshMat && '_' !in channel && (seg == stem || stem + "_" <= seg)
    ensures Matches(name, meshMat, channel)
  {
    var seg := LastSegment(name);
    var stem := meshMat + "_" + channel + ".png";
    var file := channel + ".png";
    assert stem == meshMat + ['_'] + file;
    assert '_' !in file;
    SplitNoSeparator(meshMat, '_');
    SplitNoSeparator(file, '_');
    if seg == stem {
      SplitConcat(meshMat, file, '_');
    } else {
      var more := seg[|stem| + 1..];
      assert seg == meshMat + ['_'] + (file + ['_'] + more);
      SplitConcat(meshMat, file + ['_'] + more, '_');
      SplitConcat(file, more, '_');
    }
  }

  /**
    A name matches exactly when its file name is `meshMat_channel.png`,
    possibly followed by `_` and anything, and neither `meshMat` nor
    `channel` contains `_`.
   */
  lemma MatchesFileName(name: string, meshMat: string, channel: string)
    ensures var seg := LastSegment(name); var stem := meshMat + "_" + channel + ".png";
      Matches(name, meshMat, channel) <==>
        '_' !in meshMat && '_' !in channel && (seg == stem || stem + "_" <= seg)
  {
    if Matches(name, meshMat, channel) {
      MatchedFileName(name, meshMat, channel);
    } else if '_' !in meshMat && '_' !in channel {
      var seg := LastSegment(name);
      var stem := meshMat + "_" + channel + ".png";
      if seg == stem || stem + "_" <= seg {
        FileNameMatched(name, meshMat, channel);
      }
    }
  }

  /** One file name cannot match two different channels of the same material. */
  lemma ChannelsNeverCollide(name: string, meshMat: string, ch1: string, ch2: string)
    requires Matches(name, meshMat, ch1) && Matches(name, meshMat, ch2)
    ensures ch1 == ch2
  {
    var a, b := ch1 + ".png", ch2 + ".png";
    assert a == b;
    assert ch1 == a[..|ch1|] && ch2 == b[..|ch2|];
  }

  /** One file name cannot match two different materials. */
  lemma MaterialsNeverCollide(name: string, mat1: string, mat2: string, ch1: string, ch2: string)
    requires Matches(name, mat1, ch1) && Matches(name, mat2, ch2)
    ensures mat1 == mat2
  {
  }

  // ---------------------------------------------------------------------------
  // The search

  /** With exactly one matching texture, the lookup finds that one. */
  lemma RetrieveUnique(meshMat: string, channel: string, textures: seq<Texture>, k: nat)
    requires k < |textures| && Matches(textures[k].name, meshMat, channel)
    requires forall j :: 0 <= j < |textures| && j != k ==> !Matches(textures[j].name, meshMat, channel)
    ensures RetrieveIndex(meshMat, channel, textures) == Some(k)
    ensures RetrieveTexture(meshMat, channel, textures) == Some(textures[k])
  {
  }

  /** Textures after the first match have no influence on the result. */
  lemma RetrieveIgnoresLaterTextures(meshMat: string, channel: string, textures: seq<Texture>, more: seq<Texture>)
    requires RetrieveIndex(meshMat, channel, textures).Some?
    ensures RetrieveIndex(meshMat, channel, textures + more) == RetrieveIndex(meshMat, channel, textures)
  {
    var k := RetrieveIndex(meshMat, channel, textures).value;
    var all := textures + more;
    assert all[k] == textures[k];
    var r := RetrieveIndex(meshMat, channel, all);
    assert r.Some?;
  }

  /** The URL of the `channel` image of material `meshMat` under directory `dir`. */
  function TextureUrl(dir: string, meshMat: string, channel: string): string
  {
    dir + "/" + meshMat + "_" + channel + ".png"
  }

  /**
    A texture stored as `dir/meshMat_channel.png`, with no `_` or `/` in the
    material or channel name, matches exactly its own material and channel.
   */
  lemma FileNameMatchesOwnKey(dir: string, mat: string, ch: string, meshMat: string, channel: string)
    requires '_' !in mat && '/' !in mat && '_' !in ch && '/' !in ch
    ensures Matches(TextureUrl(dir, mat, ch), meshMat, channel) <==> mat == meshMat && ch == channel
  {
    var file := ch + ".png";
    var name := mat + "_" + file;
    assert TextureUrl(dir, mat, ch) == dir + "/" + name;
    MatchesIgnoresDirectory(dir, name, meshMat, channel);
    assert '/' !in name;
    SplitNoSeparator(name, '/');
    assert '_' !in file;
    assert name == mat + ['_'] + file;
    SplitConcat(mat, file, '_');
    SplitNoSeparator(mat, '_');
    SplitNoSeparator(file, '_');
    if file == channel + ".png" {
      assert ch == file[..|ch|] && channel == (channel + ".png")[..|channel|];
    }
  }

  // ---------------------------------------------------------------------------
  // The textures of the bottle scene

  /** The directory the scene's textures are fetched from. */
  const AssetDir: string := "https://patrickryanms.github.io/BabylonJStextures/Demos/sodaBottle/assets/gltf"

  /**
    The three textures `loadTexturesAsync` fetches, in its order, served from
    directory `dir`; `SceneTexturesAreSodaTextures` shows the scene's own
    textures are `SodaTexturesAt(AssetDir)`.
   */
  function SodaTexturesAt(dir: string): seq<Texture>
  {
    [ Texture(TextureUrl(dir, "sodaBottleMat", "thickness")),
      Texture(TextureUrl(dir, "sodaMat", "thickness")),
      Texture(TextureUrl(dir, "sodaBottleMat", "translucency")) ]
  }

  /** Which of the scene's textures answer a request for `(meshMat, channel)`. */
  lemma SodaTexturesMatch(dir: string, meshMat: string, channel: string)
    ensures var t := SodaTexturesAt(dir);
      && (Matches(t[0].name, meshMat, channel) <==> meshMat == "sodaBottleMat" && channel == "thickness")
      && (Matches(t[1].name, meshMat, channel) <==> meshMat == "sodaMat" && channel == "thickness")
      && (Matches(t[2].name, meshMat, channel) <==> meshMat == "sodaBottleMat" && channel == "translucency")
  {
    FileNameMatchesOwnKey(dir, "sodaBottleMat", "thickness", meshMat, channel);
    FileNameMatchesOwnKey(dir, "sodaMat", "thickness", meshMat, channel);
    FileNameMatchesOwnKey(dir, "sodaBottleMat", "translucency", meshMat, channel);
  }

  /** What any request returns on the scene's list: the position of its own texture, if it has one. */
  lemma SodaLookup(dir: string, meshMat: string, channel: string)
    ensures RetrieveIndex(meshMat, channel, SodaTexturesAt(dir)) ==
      if meshMat == "sodaBottleMat" && channel == "thickness" then Some(0)
      else if meshMat == "sodaMat" && channel == "thickness" then Some(1)
      else if meshMat == "sodaBottleMat" && channel == "translucency" then Some(2)
      else None
  {
    SodaTexturesMatch(dir, meshMat, channel);
  }

  /**
    The three lookups of `assignTextures` each find their own texture, and
    the liquid has no translucency texture, wherever the files are served from.
   */
  lemma SodaLookups(dir: string)
    ensures RetrieveIndex("sodaBottleMat", "thickness", SodaTexturesAt(dir)) == Some(0)
    ensures RetrieveIndex("sodaMat", "thickness", SodaTexturesAt(dir)) == Some(1)
    ensures RetrieveIndex("sodaBottleMat", "translucency", SodaTexturesAt(dir)) == Some(2)
    ensures RetrieveIndex("sodaMat", "translucency", SodaTexturesAt(dir)) == None
  {
    SodaLookup(dir, "sodaBottleMat", "thickness");
    SodaLookup(dir, "sodaMat", "thickness");
    SodaLookup(dir, "sodaBottleMat", "translucency");
    SodaLookup(dir, "sodaMat", "translucency");
  }

  /** The URLs of `loadTexturesAsync`, as written there. */
  const BottleThicknessUrl: string := "https://patrickryanms.github.io/BabylonJStextures/Demos/sodaBottle/assets/gltf/sodaBottleMat_thickness.png"
  const LiquidThicknessUrl: string := "https://patrickryanms.github.io/BabylonJStextures/Demos/sodaBottle/assets/gltf/sodaMat_thickness.png"
  const BottleTranslucencyUrl: string := "https://patrickryanms.github.io/BabylonJStextures/Demos/sodaBottle/assets/gltf/sodaBottleMat_translucency.png"

  /** The URL list of `loadTexturesAsync`, in its order. */
  const SceneUrls: seq<string> := [BottleThicknessUrl, LiquidThicknessUrl, BottleTranslucencyUrl]

  /** The textures `loadTexturesAsync` creates: one per URL, in the list's order. */
  function SceneTextures(): seq<Texture>
  {
    seq(|SceneUrls|, k requires 0 <= k < |SceneUrls| => Texture(SceneUrls[k]))
  }

  /** A URL that is `dir` followed by `file` is their concatenation. */
  lemma UrlFromParts(url: string, dir: string, file: string)
    requires |dir| <= |url| && url[..|dir|] == dir && url[|dir|..] == file
    ensures url == dir + file
  {
    assert url == url[..|dir|] + url[|dir|..];
  }

  // The file names of the scene's textures, part by part.

  lemma BottleThicknessFile()
    ensures "/sodaBottleMat_thickness.png" == "/" + "sodaBottleMat" + "_" + "thickness" + ".png"
  {
  }

  lemma LiquidThicknessFile()
    ensures "/sodaMat_thickness.png" == "/" + "sodaMat" + "_" + "thickness" + ".png"
  {
  }

  lemma BottleTranslucencyFile()
    ensures "/sodaBottleMat_translucency.png" == "/" + "sodaBottleMat" + "_" + "translucency" + ".png"
  {
  }

  // Each scene URL is `AssetDir` followed by its file name.

  lemma BottleThicknessUrlParts()
    ensures |AssetDir| <= |BottleThicknessUrl|
    ensures BottleThicknessUrl[..|AssetDir|] == AssetDir
    ensures BottleThicknessUrl[|AssetDir|..] == "/sodaBottleMat_thickness.png"
  {
  }

  lemma LiquidThicknessUrlParts()
    ensures |AssetDir| <= |LiquidThicknessUrl|
    ensures LiquidThicknessUrl[..|AssetDir|] == AssetDir
    ensures LiquidThicknessUrl[|AssetDir|..] == "/sodaMat_thickness.png"
  {
  }

  lemma BottleTranslucencyUrlParts()
    ensures |AssetDir| <= |BottleTranslucencyUrl|
    ensures BottleTranslucencyUrl[..|AssetDir|] == AssetDir
    ensures BottleTranslucencyUrl[|AssetDir|..] == "/sodaBottleMat_translucency.png"
  {
  }

  /** A texture URL is its directory followed by `/` and its file name. */
  lemma TextureUrlOfFile(dir: string, meshMat: string, channel: string, file: string)
    requires file == "/" + meshMat + "_" + channel + ".png"
    ensures TextureUrl(dir, meshMat, channel) == dir + file
  {
  }

  /** The scene's URLs are the three texture URLs under `AssetDir`. */
  lemma SceneUrlsUnderAssetDir()
    ensures BottleThicknessUrl == TextureUrl(AssetDir, "sodaBottleMat", "thickness")
    ensures LiquidThicknessUrl == TextureUrl(AssetDir, "sodaMat", "thickness")
    ensures BottleTranslucencyUrl == TextureUrl(AssetDir, "sodaBottleMat", "translucency")
  {
    BottleThicknessFile();
    BottleThicknessUrlParts();
    UrlFromParts(BottleThicknessUrl, AssetDir, "/sodaBottleMat_thickness.png");
    TextureUrlOfFile(AssetDir, "sodaBottleMat", "thickness", "/sodaBottleMat_thickness.png");
    LiquidThicknessFile();
    LiquidThicknessUrlParts();
    UrlFromParts(LiquidThicknessUrl, AssetDir, "/sodaMat_thickness.png");
    TextureUrlOfFile(AssetDir, "sodaMat", "thickness", "/sodaMat_thickness.png");
    BottleTranslucencyFile();
    BottleTranslucencyUrlParts();
    UrlFromParts(BottleTranslucencyUrl, AssetDir, "/sodaBottleMat_translucency.png");
    TextureUrlOfFile(AssetDir, "sodaBottleMat", "translucency", "/sodaBottleMat_translucency.png");
  }

  /** The scene's own texture list is `SodaTexturesAt(AssetDir)`. */
  lemma SceneTexturesAreSodaTextures()
    ensures SceneTextures() == SodaTexturesAt(AssetDir)
  {
    SceneUrlsUnderAssetDir();
  }

  /**
    The lookups of `assignTextures` on the textures of `loadTexturesAsync`:
    the bottle's thickness and translucency and the liquid's thickness each
    find their own texture, and the liquid has no translucency texture.
   */
  lemma SceneLookups()
    ensures var t := SceneTextures();
      && RetrieveTexture("sodaBottleMat", "thickness", t) == Some(t[0])
      && RetrieveTexture("sodaMat", "thickness", t) == Some(t[1])
      && RetrieveTexture("sodaBottleMat", "translucency", t) == Some(t[2])
      && RetrieveTexture("sodaMat", "translucency", t) == None
  {
    SceneTexturesAreSodaTextures();
    SodaLookups(AssetDir);
  }
}

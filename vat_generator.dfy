/**
  VATGenerator, the editor tool that bakes a vertex animation texture: texel (x, y) holds the
  position of vertex x at frame y of a clip, frames spread evenly over the clip's length, and
  the texture is saved under a file name built from the target's and the clip's names.

  Sampling the clip, baking the skinned mesh and the target's transforms are the engine's:
  an AnimatedMesh gives them as functions of the sample time. Encoding and writing the file
  are not modelled; the path the file is written to is.
*/
module VatBaking {
  import opened Engine

  /** The characters removed from a file name. */
  const IllegalChars: string := "|"

  /** String.Replace(c.ToString(), ""): every occurrence of c removed. */
  function RemoveChar(s: string, c: char): (r: string)
    ensures c !in r
    ensures |r| <= |s|
    decreases |s|
  {
    if s == [] then [] else (if s[0] == c then [] else [s[0]]) + RemoveChar(s[1..], c)
  }

  /** Removing from a concatenation removes from each part. */
  lemma {:induction false} RemoveCharDistributes(a: string, b: string, c: char)
    ensures RemoveChar(a + b, c) == RemoveChar(a, c) + RemoveChar(b, c)
    decreases |a|
  {
    if a == [] {
      assert a + b == b;
    } else {
      assert (a + b)[0] == a[0] && (a + b)[1..] == a[1..] + b;
      RemoveCharDistributes(a[1..], b, c);
    }
  }

  /** A string without c is left as it is. */
  lemma {:induction false} RemoveCharAbsent(s: string, c: char)
    requires c !in s
    ensures RemoveChar(s, c) == s
    decreases |s|
  {
    if s != [] {
      RemoveCharAbsent(s[1..], c);
    }
  }

  /** Removing twice is removing once. */
  lemma RemoveCharIdempotent(s: string, c: char)
    ensures RemoveChar(RemoveChar(s, c), c) == RemoveChar(s, c)
  {
    RemoveCharAbsent(RemoveChar(s, c), c);
  }

  /** Every other character keeps its number of occurrences, and c has none left. */
  lemma {:induction false} RemoveCharKeepsOthers(s: string, c: char, d: char)
    ensures multiset(RemoveChar(s, c))[d] == if d == c then 0 else multiset(s)[d]
    decreases |s|
  {
    if s != [] {
      RemoveCharKeepsOthers(s[1..], c, d);
      assert s == [s[0]] + s[1..];
    }
  }

  /** The name SaveTexture gives the file before removing illegal characters. */
  function RawFilename(targetName: string, clipName: string): (r: string)
    ensures |r| == |targetName| + 1 + |clipName| + 4
    ensures r[..|targetName|] == targetName && r[|targetName|] == '-'
    ensures r[|targetName| + 1..|r| - 4] == clipName && r[|r| - 4..] == ".exr"
  {
    targetName + "-" + clipName + ".exr"
  }

  /**
    The saved name is the target's and the clip's names, each without '|', joined by "-",
    with the extension ".exr": the separator and the extension survive the clean-up.
  */
  lemma CleanFilenameIsCleanParts(targetName: string, clipName: string)
    ensures RemoveChar(RawFilename(targetName, clipName), '|')
            == RemoveChar(targetName, '|') + "-" + RemoveChar(clipName, '|') + ".exr"
  {
    RemoveCharDistributes(targetName + "-" + clipName, ".exr", '|');
    RemoveCharDistributes(targetName + "-", clipName, '|');
    RemoveCharDistributes(targetName, "-", '|');
    RemoveCharAbsent("-", '|');
    RemoveCharAbsent(".exr", '|');
  }

  /** The time a frame is sampled at, as a fraction of the clip: a real, or NaN from 0 / 0. */
  datatype SampleTime = At(t: real) | NaN

  /**
    `y / (frameCount - 1.0f)`: frames spread so that the last one falls on the clip's end.
    With a single frame the quotient is 0 / 0.
  */
  function FrameTime(y: nat, frameCount: nat): (r: SampleTime)
    requires y < frameCount
    ensures r == NaN <==> frameCount == 1
    ensures r.At? ==> 0.0 <= r.t <= 1.0
  {
    if frameCount == 1 then NaN
    else
      var d := frameCount as real - 1.0;
      assert y as real / d <= 1.0 by {
        assert y as real <= d;
      }
      At(y as real / d)
  }

  /** With two frames or more the first is sampled at the clip's start and the last at its end. */
  lemma FrameTimesSpanTheClip(frameCount: nat)
    requires frameCount >= 2
    ensures FrameTime(0, frameCount) == At(0.0)
    ensures FrameTime(frameCount - 1, frameCount) == At(1.0)
  {
    var d := frameCount as real - 1.0;
    assert (frameCount - 1) as real == d;
    assert 0 as real / d == 0.0;
    assert d / d == 1.0;
  }

  /** With two frames or more every frame is sampled inside the clip, later frames later. */
  lemma FrameTimesIncrease(y: nat, y': nat, frameCount: nat)
    requires frameCount >= 2 && y < y' < frameCount
    ensures FrameTime(y, frameCount).At? && FrameTime(y', frameCount).At?
    ensures 0.0 <= FrameTime(y, frameCount).t < FrameTime(y', frameCount).t <= 1.0
  {
    var d := frameCount as real - 1.0;
    assert y as real / d < y' as real / d by {
      assert y' as real / d - y as real / d == (y' - y) as real / d;
    }
    assert y' as real / d <= 1.0 by {
      assert y' as real <= d;
    }
  }

  /** With a single frame the clip is sampled at NaN. */
  lemma SingleFrameSamplesNaN()
    ensures FrameTime(0, 1) == NaN
  {
  }

  /** Where Generate looks for a mesh: a SkinnedMeshRenderer first, then a MeshFilter. */
  datatype BakeSource = SkinnedMesh | MeshFilter | NoMesh

  function ChooseSource(hasSkinnedMeshRenderer: bool, hasMeshFilter: bool): (r: BakeSource)
    ensures r == SkinnedMesh <==> hasSkinnedMeshRenderer
    ensures r == MeshFilter <==> !hasSkinnedMeshRenderer && hasMeshFilter
    ensures r == NoMesh <==> !hasSkinnedMeshRenderer && !hasMeshFilter
  {
    if hasSkinnedMeshRenderer then SkinnedMesh else if hasMeshFilter then MeshFilter else NoMesh
  }

  /** The serialized `space` field. */
  datatype Space = Self | World

  /**
    A mesh under an animated target, as the engine shows it once the clip has been sampled
    at a given time: the mesh's vertices (baked, for a skinned mesh), the renderer
    transform's local TRS, and the target's local-to-world matrix.
  */
  datatype AnimatedMesh = AnimatedMesh(
    vertexCount: nat,
    vertexAt: (SampleTime, nat) -> Vec3,
    localTrsAt: SampleTime -> Matrix4x4,
    targetToWorldAt: SampleTime -> Matrix4x4)

  /** Vertex x at time t through the renderer's TRS, and into world space when `space` is World. */
  function BakedPoint(mesh: AnimatedMesh, space: Space, t: SampleTime, x: nat): Vec3
  {
    var p := MultiplyPoint3x4(mesh.localTrsAt(t), mesh.vertexAt(t, x));
    if space == World then MultiplyPoint3x4(mesh.targetToWorldAt(t), p) else p
  }

  /** The skinned overload's texel: the point raised by yOffset in its y channel. */
  function RaisedTexel(p: Vec3, yOffset: real): Color
  {
    Color(p.x, p.y + yOffset, p.z, 1.0)
  }

  class VATGenerator {
    /** The name of the target to bake. */
    const targetName: string
    /** The name of the animation clip. */
    const clipName: string
    const yOffset: real
    const frameCount: nat
    const space: Space
    const dirToSave: string

    constructor (targetName: string, clipName: string, yOffset: real, frameCount: nat, space: Space, dirToSave: string)
      ensures this.targetName == targetName && this.clipName == clipName && this.yOffset == yOffset
      ensures this.frameCount == frameCount && this.space == space && this.dirToSave == dirToSave
    {
      this.targetName := targetName;
      this.clipName := clipName;
      this.yOffset := yOffset;
      this.frameCount := frameCount;
      this.space := space;
      this.dirToSave := dirToSave;
    }

    /**
      SaveTexture's naming: for every character of the raw name that is illegal, every
      occurrence of it is removed; the directory is appended to the data path, and the name to
      the directory, with no separator inserted.
    */
    method SaveTexture(dataPath: string) returns (filename: string, fullName: string)
      ensures IllegalChars[0] !in filename
      ensures filename == RemoveChar(targetName, '|') + "-" + RemoveChar(clipName, '|') + ".exr"
      ensures fullName == dataPath + dirToSave + filename
    {
      var original := RawFilename(targetName, clipName);
      filename := original;
      for i := 0 to |original|
        invariant filename == if '|' in original[..i] then RemoveChar(original, '|') else original
      {
        var c := original[i];
        if c in IllegalChars {
          RemoveCharIdempotent(original, c);
          filename := RemoveChar(filename, c);
        }
        assert original[..i + 1] == original[..i] + [c];
      }
      assert original[..|original|] == original;
      if '|' !in original {
        RemoveCharAbsent(original, '|');
      }
      CleanFilenameIsCleanParts(targetName, clipName);
      fullName := dataPath + dirToSave + filename;
    }

    /**
      Generate(MeshFilter): a vertexCount x frameCount texture whose texel (x, y) is vertex x
      at frame y's time, alpha 1; then the save path.
    */
    method GenerateFromMeshFilter(mesh: AnimatedMesh, dataPath: string) returns (texture: array2<Color>, fullName: string)
      ensures fresh(texture) && texture.Length0 == mesh.vertexCount && texture.Length1 == frameCount
      ensures forall x, y :: 0 <= x < mesh.vertexCount && 0 <= y < frameCount ==>
                texture[x, y] == Opaque(BakedPoint(mesh, space, FrameTime(y, frameCount), x))
      ensures fullName == dataPath + dirToSave + RemoveChar(RawFilename(targetName, clipName), '|')
    {
      var width := mesh.vertexCount;
      texture := new Color[width, frameCount];
      for y := 0 to frameCount
        invariant forall x', y' :: 0 <= x' < width && 0 <= y' < y ==>
                    texture[x', y'] == Opaque(BakedPoint(mesh, space, FrameTime(y', frameCount), x'))
      {
        var t := FrameTime(y, frameCount);
        for x := 0 to width
          invariant forall x', y' :: 0 <= x' < width && 0 <= y' < y ==>
                      texture[x', y'] == Opaque(BakedPoint(mesh, space, FrameTime(y', frameCount), x'))
          invariant forall x' :: 0 <= x' < x ==> texture[x', y] == Opaque(BakedPoint(mesh, space, t, x'))
        {
          var position := BakedPoint(mesh, space, t, x);
          texture[x, y] := Opaque(position);
        }
      }
      var filename;
      filename, fullName := SaveTexture(dataPath);
      CleanFilenameIsCleanParts(targetName, clipName);
    }

    /**
      Generate(SkinnedMeshRenderer): the same grid from the baked mesh, with yOffset added to
      every texel's y channel; then the save path.
    */
    method GenerateFromSkinnedMesh(mesh: AnimatedMesh, dataPath: string) returns (texture: array2<Color>, fullName: string)
      ensures fresh(texture) && texture.Length0 == mesh.vertexCount && texture.Length1 == frameCount
      ensures forall x, y :: 0 <= x < mesh.vertexCount && 0 <= y < frameCount ==>
                texture[x, y] == RaisedTexel(BakedPoint(mesh, space, FrameTime(y, frameCount), x), yOffset)
      ensures fullName == dataPath + dirToSave + RemoveChar(RawFilename(targetName, clipName), '|')
    {
      var width := mesh.vertexCount;
      texture := new Color[width, frameCount];
      for y := 0 to frameCount
        invariant forall x', y' :: 0 <= x' < width && 0 <= y' < y ==>
                    texture[x', y'] == RaisedTexel(BakedPoint(mesh, space, FrameTime(y', frameCount), x'), yOffset)
      {
        var t := FrameTime(y, frameCount);
        for x := 0 to width
          invariant forall x', y' :: 0 <= x' < width && 0 <= y' < y ==>
                      texture[x', y'] == RaisedTexel(BakedPoint(mesh, space, FrameTime(y', frameCount), x'), yOffset)
          invariant forall x' :: 0 <= x' < x ==> texture[x', y] == RaisedTexel(BakedPoint(mesh, space, t, x'), yOffset)
        {
          var position := BakedPoint(mesh, space, t, x);
          texture[x, y] := Color(position.x, position.y + yOffset, position.z, 1.0);
        }
      }
      var filename;
      filename, fullName := SaveTexture(dataPath);
      CleanFilenameIsCleanParts(targetName, clipName);
    }

    /**
      Generate: bake from the target's SkinnedMeshRenderer when it has one, else from its
      MeshFilter, else log an error and produce nothing.
    */
    method Generate(skinned: Option<AnimatedMesh>, meshFilter: Option<AnimatedMesh>, dataPath: string)
      returns (source: BakeSource, texture: array2?<Color>, fullName: string)
      ensures source == ChooseSource(skinned.Some?, meshFilter.Some?)
      ensures texture == null <==> source == NoMesh
      ensures source == SkinnedMesh ==> texture.Length0 == skinned.value.vertexCount && texture.Length1 == frameCount
      ensures source == SkinnedMesh ==> forall x, y :: 0 <= x < skinned.value.vertexCount && 0 <= y < frameCount ==>
                texture[x, y] == RaisedTexel(BakedPoint(skinned.value, space, FrameTime(y, frameCount), x), yOffset)
      ensures source == MeshFilter ==> texture.Length0 == meshFilter.value.vertexCount && texture.Length1 == frameCount
      ensures source == MeshFilter ==> forall x, y :: 0 <= x < meshFilter.value.vertexCount && 0 <= y < frameCount ==>
                texture[x, y] == Opaque(BakedPoint(meshFilter.value, space, FrameTime(y, frameCount), x))
      ensures source != NoMesh ==> fresh(texture) && fullName == dataPath + dirToSave + RemoveChar(RawFilename(targetName, clipName), '|')
    {
      source := ChooseSource(skinned.Some?, meshFilter.Some?);
      match source {
        case NoMesh =>
          texture, fullName := null, "";
        case MeshFilter =>
          texture, fullName := GenerateFromMeshFilter(meshFilter.value, dataPath);
        case SkinnedMesh =>
          texture, fullName := GenerateFromSkinnedMesh(skinned.value, dataPath);
      }
    }
  }
}

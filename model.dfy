/**
 * Assembly of a renderable model from a CPU-side model (`src/renderer/object/model.rs`):
 * materials are converted index for index, every triangle primitive becomes one part
 * carrying its material, transformation and animations, and `StartAnimation` picks,
 * per part, the first animation with the requested name.
 *
 * GPU objects are opaque stand-ins: a `Mesh` records the triangle data it was built
 * from, its transformation and the animation it is running; a `Material` records the
 * CPU material it was converted from, or that it is the default material.
 */
module ObjectModel {
  import opened Wrappers

  // ---------------------------------------------------------------------------
  // CPU-side input (three_d_asset), opaque payloads

  datatype CpuMaterial = CpuMaterial(name: string, data: nat)
  datatype TriMesh = TriMesh(data: nat)
  datatype PointCloud = PointCloud(data: nat)
  datatype CpuGeometry = Triangles(triMesh: TriMesh) | Points(pointCloud: PointCloud)

  /** The 16 entries of a 4x4 matrix, row by row. */
  type Entries16 = s: seq<real> | |s| == 16 witness seq(16, _ => 0.0)

  /** A 4x4 transformation matrix. */
  datatype Mat4 = Mat4(entries: Entries16)

  datatype KeyFrameAnimation = KeyFrameAnimation(name: Option<string>, keyFrames: nat)

  datatype Primitive = Primitive(
    name: string,
    transformation: Mat4,
    animations: seq<KeyFrameAnimation>,
    geometry: CpuGeometry,
    materialIndex: Option<nat>)

  datatype CpuModel = CpuModel(name: string, geometries: seq<Primitive>, materials: seq<CpuMaterial>)

  // ---------------------------------------------------------------------------
  // GPU-side output

  /** `M::from_cpu_material(context, m)` and `M::default()`. */
  datatype Material = FromCpuMaterial(source: CpuMaterial) | DefaultMaterial

  datatype Mesh = Mesh(source: TriMesh, transformation: Mat4, animation: Option<KeyFrameAnimation>)

  datatype Gm = Gm(geometry: Mesh, material: Material)

  datatype ModelPart = ModelPart(gm: Gm, animations: seq<KeyFrameAnimation>)

  /** `RendererError::MissingMaterial(index.to_string(), primitive name)`. */
  datatype RendererError = MissingMaterial(index: string, name: string)

  const Identity: Mat4 := Mat4([1.0, 0.0, 0.0, 0.0,
                                0.0, 1.0, 0.0, 0.0,
                                0.0, 0.0, 1.0, 0.0,
                                0.0, 0.0, 0.0, 1.0])

  /** `Mesh::new`: a fresh mesh of the triangle data, untransformed and not animated. */
  function NewMesh(triMesh: TriMesh): Mesh {
    Mesh(triMesh, Identity, None)
  }

  // ---------------------------------------------------------------------------
  // Decimal rendering of a material index (`usize::to_string`)

  function DigitChar(d: nat): char
    requires d < 10
  {
    "0123456789"[d]
  }

  function DigitValue(c: char): nat {
    if '0' <= c <= '9' then (c as int - '0' as int) else 0
  }

  function DecimalString(n: nat): (s: string)
    ensures |s| > 0
    ensures forall i :: 0 <= i < |s| ==> '0' <= s[i] <= '9'
    ensures s[0] == '0' ==> n == 0 && s == "0"
  {
    if n < 10 then [DigitChar(n)] else DecimalString(n / 10) + [DigitChar(n % 10)]
  }

  function DecimalValue(s: string): nat {
    if s == [] then 0 else 10 * DecimalValue(s[..|s| - 1]) + DigitValue(s[|s| - 1])
  }

  /** The index rendered in the error message reads back as that index. */
  lemma {:induction false} DecimalRoundTrip(n: nat)
    ensures DecimalValue(DecimalString(n)) == n
  {
    var s := DecimalString(n);
    if n < 10 {
      assert s[..0] == [];
    } else {
      DecimalRoundTrip(n / 10);
      assert s[..|s| - 1] == DecimalString(n / 10);
    }
  }

  // ---------------------------------------------------------------------------
  // Materials and primitive selection

  /** The material list: one material per CPU material, in the same order (src/renderer/object/model.rs:84-88). */
  function Materials(cpuMaterials: seq<CpuMaterial>): (r: seq<Material>)
    ensures |r| == |cpuMaterials|
    ensures forall i :: 0 <= i < |r| ==> r[i] == FromCpuMaterial(cpuMaterials[i])
  {
    if cpuMaterials == [] then []
    else [FromCpuMaterial(cpuMaterials[0])] + Materials(cpuMaterials[1..])
  }

  predicate IsTriangles(p: Primitive) {
    p.geometry.Triangles?
  }

  /** A triangle primitive whose material index points past the material list. */
  predicate MissesMaterial(p: Primitive, materialCount: nat) {
    IsTriangles(p) && p.materialIndex.Some? && p.materialIndex.value >= materialCount
  }

  function MissingFor(p: Primitive): RendererError
    requires p.materialIndex.Some?
  {
    MissingMaterial(DecimalString(p.materialIndex.value), p.name)
  }

  /** The positions of the triangle primitives, in increasing order: exactly the primitives that produce a part. */
  function TriangleIndices(prims: seq<Primitive>): (r: seq<nat>)
    ensures forall j :: 0 <= j < |r| ==> r[j] < |prims| && IsTriangles(prims[r[j]])
    ensures forall j, k :: 0 <= j < k < |r| ==> r[j] < r[k]
    ensures forall i :: 0 <= i < |prims| && IsTriangles(prims[i]) ==> i in r
    decreases |prims|
  {
    if prims == [] then []
    else
      var last := |prims| - 1;
      TriangleIndices(prims[..last]) + (if IsTriangles(prims[last]) then [last] else [])
  }

  /** What `Model::new` promises of the part built from primitive `p`. */
  predicate BuiltFrom(part: ModelPart, p: Primitive, materials: seq<Material>) {
    && p.geometry.Triangles?
    && part.gm.geometry == NewMesh(p.geometry.triMesh).(transformation := p.transformation)
    && part.animations == p.animations
    && (match p.materialIndex
        case Some(i) => i < |materials| && part.gm.material == materials[i]
        case None => part.gm.material == DefaultMaterial)
  }

  /** Every triangle primitive finds its material. */
  predicate AllMaterialsPresent(cpuModel: CpuModel) {
    forall i :: 0 <= i < |cpuModel.geometries| ==> !MissesMaterial(cpuModel.geometries[i], |cpuModel.materials|)
  }

  /** `err` is the error of the first triangle primitive whose material is missing. */
  ghost predicate FailsWithFirstMissing(cpuModel: CpuModel, err: RendererError) {
    var prims := cpuModel.geometries;
    exists k :: && 0 <= k < |prims|
                && MissesMaterial(prims[k], |cpuModel.materials|)
                && (forall j :: 0 <= j < k ==> !MissesMaterial(prims[j], |cpuModel.materials|))
                && err == MissingFor(prims[k])
  }

  /** One part per triangle primitive, in order, each built from its primitive. */
  ghost predicate Assembled(cpuModel: CpuModel, parts: seq<ModelPart>) {
    var idx := TriangleIndices(cpuModel.geometries);
    && |parts| == |idx|
    && forall j :: 0 <= j < |parts| ==>
         BuiltFrom(parts[j], cpuModel.geometries[idx[j]], Materials(cpuModel.materials))
  }

  /** The part of a triangle primitive whose material index has been checked. */
  function MakePart(p: Primitive, materials: seq<Material>): (part: ModelPart)
    requires IsTriangles(p) && !MissesMaterial(p, |materials|)
    ensures BuiltFrom(part, p, materials)
  {
    var material := match p.materialIndex
      case Some(i) => materials[i]
      case None => DefaultMaterial;
    var mesh := NewMesh(p.geometry.triMesh).(transformation := p.transformation);
    ModelPart(Gm(mesh, material), p.animations)
  }

  /** The first triangle primitive whose material index is out of range decides the error. */
  lemma FirstMissingDecides(cpuModel: CpuModel, i: nat)
    requires i < |cpuModel.geometries|
    requires MissesMaterial(cpuModel.geometries[i], |cpuModel.materials|)
    requires forall k :: 0 <= k < i ==> !MissesMaterial(cpuModel.geometries[k], |cpuModel.materials|)
    ensures !AllMaterialsPresent(cpuModel)
    ensures FailsWithFirstMissing(cpuModel, MissingFor(cpuModel.geometries[i]))
  {
  }

  /** The parts the loop pushes for a run of primitives whose material indices all resolve. */
  function PartsOf(prims: seq<Primitive>, materials: seq<Material>): seq<ModelPart>
    requires forall k :: 0 <= k < |prims| ==> !MissesMaterial(prims[k], |materials|)
    decreases |prims|
  {
    if prims == [] then []
    else
      var last := |prims| - 1;
      PartsOf(prims[..last], materials) + (if IsTriangles(prims[last]) then [MakePart(prims[last], materials)] else [])
  }

  /** One part per triangle primitive, in order, each built from its primitive. */
  lemma {:induction false} PartsOfAssembled(prims: seq<Primitive>, materials: seq<Material>)
    requires forall k :: 0 <= k < |prims| ==> !MissesMaterial(prims[k], |materials|)
    ensures |PartsOf(prims, materials)| == |TriangleIndices(prims)|
    ensures forall j :: 0 <= j < |PartsOf(prims, materials)| ==>
              BuiltFrom(PartsOf(prims, materials)[j], prims[TriangleIndices(prims)[j]], materials)
    decreases |prims|
  {
    if prims != [] {
      var last := |prims| - 1;
      var init := prims[..last];
      PartsOfAssembled(init, materials);
      var idx := TriangleIndices(init);
      forall j | 0 <= j < |idx| ensures init[idx[j]] == prims[idx[j]] {
      }
    }
  }

  /** The loop of `Model::new` (src/renderer/object/model.rs:83-117), returning the parts or the first missing material. */
  method BuildParts(cpuModel: CpuModel) returns (r: Result<seq<ModelPart>, RendererError>)
    ensures r.Ok? <==> AllMaterialsPresent(cpuModel)
    ensures r.Ok? ==> Assembled(cpuModel, r.value)
    ensures r.Err? ==> FailsWithFirstMissing(cpuModel, r.error)
  {
    var materials := Materials(cpuModel.materials);
    var prims := cpuModel.geometries;
    var gms: seq<ModelPart> := [];
    for i := 0 to |prims|
      invariant forall k :: 0 <= k < i ==> !MissesMaterial(prims[k], |materials|)
      invariant gms == PartsOf(prims[..i], materials)
    {
      var p := prims[i];
      assert prims[..i + 1][..i] == prims[..i];
      if p.geometry.Triangles? {
        if p.materialIndex.Some? && p.materialIndex.value >= |materials| {
          FirstMissingDecides(cpuModel, i);
          return Err(MissingFor(p));
        }
        gms := gms + [MakePart(p, materials)];
      }
    }
    assert prims[..|prims|] == prims;
    PartsOfAssembled(prims, materials);
    return Ok(gms);
  }

  // ---------------------------------------------------------------------------
  // Animation selection

  /** The first animation whose name equals `name` (`Iterator::find`); `None` == `None` matches an unnamed animation. */
  function FindAnimation(animations: seq<KeyFrameAnimation>, name: Option<string>): (r: Option<KeyFrameAnimation>)
    ensures r.None? <==> forall i :: 0 <= i < |animations| ==> animations[i].name != name
    ensures r.Some? ==> exists i :: && 0 <= i < |animations|
                                    && animations[i] == r.value
                                    && animations[i].name == name
                                    && forall j :: 0 <= j < i ==> animations[j].name != name
  {
    if animations == [] then None
    else if animations[0].name == name then Some(animations[0])
    else
      var rest := FindAnimation(animations[1..], name);
      assert forall j :: 1 <= j < |animations| ==> animations[j] == animations[1..][j - 1];
      rest
  }

  /** A part after `start_animation`: running the selected animation, or stopped; nothing else changes. */
  function Animated(part: ModelPart, name: Option<string>): ModelPart {
    part.(gm := part.gm.(geometry := part.gm.geometry.(animation := FindAnimation(part.animations, name))))
  }

  /** A renderable model: its parts, in order. */
  class Model {
    var parts: seq<ModelPart>

    constructor (parts: seq<ModelPart>)
      ensures this.parts == parts
    {
      this.parts := parts;
    }

    /** `Model::new`: the parts of every triangle primitive, or the first missing-material error and no model. */
    static method New(cpuModel: CpuModel) returns (r: Result<Model, RendererError>)
      ensures r.Ok? <==> AllMaterialsPresent(cpuModel)
      ensures r.Ok? ==> fresh(r.value) && Assembled(cpuModel, r.value.parts)
      ensures r.Err? ==> FailsWithFirstMissing(cpuModel, r.error)
    {
      var built := BuildParts(cpuModel);
      match built
      case Err(e) =>
        r := Err(e);
      case Ok(gms) =>
        var m := new Model(gms);
        r := Ok(m);
    }

    /** `Model::start_animation` (src/renderer/object/model.rs:119-132), part by part in place. */
    method StartAnimation(name: Option<string>)
      modifies this
      ensures |parts| == |old(parts)|
      ensures forall j :: 0 <= j < |parts| ==> parts[j] == Animated(old(parts)[j], name)
    {
      for i := 0 to |parts|
        invariant |parts| == |old(parts)|
        invariant forall j :: 0 <= j < i ==> parts[j] == Animated(old(parts)[j], name)
        invariant forall j :: i <= j < |parts| ==> parts[j] == old(parts)[j]
      {
        var part := parts[i];
        var found := FindAnimation(part.animations, name);
        var mesh := part.gm.geometry;
        if found.Some? {
          mesh := mesh.(animation := Some(found.value));
        } else {
          mesh := mesh.(animation := None);
        }
        parts := parts[i := part.(gm := part.gm.(geometry := mesh))];
      }
    }
  }

  // ---------------------------------------------------------------------------
  // Properties of animation selection

  /** After `start_animation(name)`, a part runs an animation iff one of its animations has that name, and then the first such. */
  lemma AnimatedRunsFirstMatch(part: ModelPart, name: Option<string>)
    ensures Animated(part, name).gm.geometry.animation.Some? <==>
            exists i :: 0 <= i < |part.animations| && part.animations[i].name == name
    ensures var a := Animated(part, name).gm.geometry.animation;
            a.Some? ==> exists i :: && 0 <= i < |part.animations|
                                    && part.animations[i] == a.value
                                    && a.value.name == name
                                    && forall j :: 0 <= j < i ==> part.animations[j].name != name
  {
  }

  /** `start_animation` keeps each part's material, mesh data, transformation and stored animation list. */
  lemma AnimatedKeepsPart(part: ModelPart, name: Option<string>)
    ensures Animated(part, name).animations == part.animations
    ensures Animated(part, name).gm.material == part.gm.material
    ensures Animated(part, name).gm.geometry.source == part.gm.geometry.source
    ensures Animated(part, name).gm.geometry.transformation == part.gm.geometry.transformation
  {
  }
}

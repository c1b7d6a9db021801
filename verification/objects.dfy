/** `update_objects.py`: one 3-D object per tree placement, each with a
    leaves group and a trunk group linked to optical and thermal
    properties. */
module Objects {
  import opened Optional
  import opened Text
  import opened Sequences
  import opened Config
  import opened PositionFile
  import opened CoeffDiff

  /** A `DefaultType` of the `Types` section. */
  datatype DefaultType = DefaultType(indexOT: nat, name: string, typeColor: string)

  /** The type table of `create_base_xml`. */
  const DefaultTypes: seq<DefaultType> := [
    DefaultType(101, "Default_Object", "255 0 0"),
    DefaultType(102, "Leaf", "0 175 0"),
    DefaultType(103, "Trunk", "71 55 25")]

  /** The links of one group: its optical property, its thermal property
      and its object type. */
  datatype GroupLinks = GroupLinks(
    name: string,
    num: nat,
    opticalIdent: string,
    indexFctPhase: nat,
    idTemperature: string,
    identOType: string,
    indexOT: nat)

  /** An `Object` of the `ObjectList`; the deviation triples are written as
      the string `0.0` and are kept as zeros here. */
  datatype SceneObject = SceneObject(
    fileSrc: string,
    num: nat,
    position: Triple,
    scale: Triple,
    rotation: Triple,
    scaleDeviation: Triple,
    rotationDeviation: Triple,
    leaves: GroupLinks,
    trunk: GroupLinks)

  const Zero := Triple(0.0, 0.0, 0.0)

  /** `create_object(position_data, object_index, obj_file_path,
      use_individual_temps, use_individual_optical)` */
  function CreateObject(
    p: PositionRecord, objectIndex: nat, objFile: string,
    individualTemps: bool, individualOptical: bool): (o: SceneObject)
    ensures o.fileSrc == objFile && o.num == objectIndex
    ensures o.position == p.position && o.scale == p.scale && o.rotation == p.rotation
    ensures o.scaleDeviation == Zero && o.rotationDeviation == Zero
    ensures o.leaves.opticalIdent == LeafIdent(if individualOptical then objectIndex else 0)
    ensures o.trunk.opticalIdent == "trunk"
    ensures individualTemps ==> o.leaves.idTemperature == LeafTemperature(objectIndex)
    ensures individualTemps ==> o.trunk.idTemperature == TrunkTemperature(objectIndex)
    ensures !individualTemps ==> o.leaves.idTemperature == SharedTreeTemperature == o.trunk.idTemperature
    ensures o.leaves.indexOT == 102 && o.leaves.identOType == "Leaf"
    ensures o.trunk.indexOT == 103 && o.trunk.identOType == "Trunk"
  {
    var leaves := GroupLinks(
      "Leaves", 1,
      if individualOptical then LeafIdent(objectIndex) else "leaf_0",
      0,
      if individualTemps then LeafTemperature(objectIndex) else SharedTreeTemperature,
      "Leaf", 102);
    var trunk := GroupLinks(
      "Trunk", 2, "trunk", 1,
      if individualTemps then TrunkTemperature(objectIndex) else SharedTreeTemperature,
      "Trunk", 103);
    assert LeafIdent(0) == "leaf_0";
    SceneObject(objFile, objectIndex, p.position, p.scale, p.rotation, Zero, Zero, leaves, trunk)
  }

  /** `get_obj_files`: the walked paths ending in `.obj`, in walk order. */
  function GetObjFiles(walk: seq<string>): (fs: seq<string>)
    ensures forall k | 0 <= k < |fs| :: EndsWith(fs[k], ".obj")
    ensures forall f | f in walk && EndsWith(f, ".obj") :: f in fs
    ensures IsSubsequence(fs, walk)
  {
    var isObj := (f: string) => EndsWith(f, ".obj");
    forall f | f in walk && EndsWith(f, ".obj") ensures f in Filter(walk, isObj) {
      FilterKeeps(walk, isObj, f);
    }
    FilterIsSubsequence(walk, isObj);
    Filter(walk, isObj)
  }

  /** What a run of the script produces. */
  datatype ObjectsOutcome =
    | ReadFailed                   // `open`, `int()` or `float()` raised
    | NoPositions                  // "No tree positions found!", nothing written
    | NoObjFiles                   // "No .obj files found", nothing written
    | Written(types: seq<DefaultType>, objects: seq<SceneObject>)

  /** The model file of object `i`: `random.choice(obj_files)`, given here
      as the index `choice(i)` it picks, or the first file. */
  function ObjFileFor(objFiles: seq<string>, multiTree: bool, choice: nat -> nat, i: nat): string
    requires |objFiles| > 0
    requires forall j: nat :: choice(j) < |objFiles|
  {
    if multiTree then objFiles[choice(i)] else objFiles[0]
  }

  /** `update_object_3d_xml` on the position file, the walked tree-model
      directory, `multi_tree`, the switches and the random choices. */
  function UpdateObject3d(
    file: TextFile, parse: FloatParser, walk: seq<string>, multiTree: bool,
    params: ParamsToVary, choice: nat -> nat): (r: ObjectsOutcome)
    requires |GetObjFiles(walk)| > 0 ==> forall j: nat :: choice(j) < |GetObjFiles(walk)|
    ensures r.ReadFailed? <==> ReadPositions(file, parse).None?
    ensures r.NoPositions? <==> ReadPositions(file, parse) == Some([])
    ensures r.NoObjFiles? <==>
      ReadPositions(file, parse).Some? && ReadPositions(file, parse).value != [] && GetObjFiles(walk) == []
    ensures r.Written? ==> r.types == DefaultTypes && |r.objects| == |ReadPositions(file, parse).value|
    ensures r.Written? ==> forall i | 0 <= i < |r.objects| ::
      var o, p := r.objects[i], ReadPositions(file, parse).value[i];
      && o.num == i
      && o.position == p.position && o.scale == p.scale && o.rotation == p.rotation
      && o.fileSrc in GetObjFiles(walk) && EndsWith(o.fileSrc, ".obj")
      && (!multiTree ==> o.fileSrc == GetObjFiles(walk)[0])
      && o.leaves.opticalIdent == LeafIdent(if params.IndividualOptical() then i else 0)
      && o.trunk.opticalIdent == "trunk"
      && (params.treeTemperature ==>
            o.leaves.idTemperature == LeafTemperature(i) && o.trunk.idTemperature == TrunkTemperature(i))
      && (!params.treeTemperature ==>
            o.leaves.idTemperature == SharedTreeTemperature && o.trunk.idTemperature == SharedTreeTemperature)
  {
    match ReadPositions(file, parse)
    case None => ReadFailed
    case Some(positions) =>
      if positions == [] then NoPositions
      else
        var objFiles := GetObjFiles(walk);
        if objFiles == [] then NoObjFiles
        else
          Written(DefaultTypes, seq(|positions|, i requires 0 <= i < |positions| =>
            CreateObject(positions[i], i, ObjFileFor(objFiles, multiTree, choice, i),
              params.treeTemperature, params.IndividualOptical())))
  }

  /** In a written file, the type each object's groups link to is in the
      file's type table, under the name the link gives. */
  lemma GroupTypesDeclared(
    file: TextFile, parse: FloatParser, walk: seq<string>, multiTree: bool,
    params: ParamsToVary, choice: nat -> nat, i: nat)
    requires |GetObjFiles(walk)| > 0 ==> forall j: nat :: choice(j) < |GetObjFiles(walk)|
    requires UpdateObject3d(file, parse, walk, multiTree, params, choice).Written?
    requires i < |UpdateObject3d(file, parse, walk, multiTree, params, choice).objects|
    ensures var r := UpdateObject3d(file, parse, walk, multiTree, params, choice);
      var o := r.objects[i];
      && (exists k | 0 <= k < |r.types| :: r.types[k].indexOT == o.leaves.indexOT && r.types[k].name == o.leaves.identOType)
      && (exists k | 0 <= k < |r.types| :: r.types[k].indexOT == o.trunk.indexOT && r.types[k].name == o.trunk.identOType)
  {
    var r := UpdateObject3d(file, parse, walk, multiTree, params, choice);
    var positions, objFiles := ReadPositions(file, parse).value, GetObjFiles(walk);
    assert r.objects[i] == CreateObject(positions[i], i, ObjFileFor(objFiles, multiTree, choice, i),
      params.treeTemperature, params.IndividualOptical());
    assert r.types[1].indexOT == 102 && r.types[1].name == "Leaf";
    assert r.types[2].indexOT == 103 && r.types[2].name == "Trunk";
  }
}

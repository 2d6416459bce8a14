/**
 * Loading discovered files into the scene (`VPAWVisualizeLogic.loadOneNode` and the
 * methods around it): the decision table from a file name to a loader, the list of
 * volumes to show, and the subject hierarchy the loaded nodes are placed under.
 *
 * The host loaders are not modelled: a loaded node is a value recording the file it came
 * from, the loader that made it and the flags the code sets on it. The unpickled contents
 * of a `.p3` file are a parameter.
 */
module NodeLoading {
  import opened Results
  import opened Text
  import opened PosixPath
  import opened SummaryRepr
  import opened FileDiscovery

  /** Why a file makes no node. */
  datatype Skip = NotSupported | NotRecognized | P3NotSupported

  datatype LoadAction =
    | LoadSegmentation
    | LoadVolume(addToShowList: bool)
    | LoadLockedMarkups
    | LoadCenterline
    | NoNode(skip: Skip)

  datatype Loader = SegmentationLoader | VolumeLoader | MarkupsLoader | CenterlineLoader

  /** A node in the scene: its source file, the loader that made it, whether its control
      points are locked and whether a closed-surface representation was created. */
  datatype Node = Node(source: string, loader: Loader, locked: bool, closedSurface: bool)

  // ---- The decision table ------------------------------------------------------------

  /** The table of `loadOneNode` for a file held by a directory called `directory`, whose
      stem is `directoryStem`: the first rule whose suffix (and, for ".nrrd", directory)
      matches decides. A ".p3" file (`loadFromP3File`) makes a node only under a directory
      with stem "centerline". */
  function Decide(filename: string, directory: string, directoryStem: string): LoadAction {
    if EndsWith(filename, ".seg.nrrd") then LoadSegmentation
    else if EndsWith(filename, ".nrrd") then
      if directory == "images" then LoadVolume(true)
      else if directory == "segmentations_computed" then LoadSegmentation
      else LoadVolume(false)
    else if EndsWith(filename, ".fcsv") then LoadLockedMarkups
    else if EndsWith(filename, ".mha") then LoadVolume(false)
    else if EndsWith(filename, ".png") then LoadVolume(false)
    else if EndsWith(filename, ".p3") then
      if directoryStem == "centerline" then LoadCenterline else NoNode(P3NotSupported)
    else if EndsWith(filename, ".xls") then NoNode(NotSupported)
    else NoNode(NotRecognized)
  }

  /** `loadOneNode(filename, ...)`: the directory is `os.path.basename(os.path.dirname(filename))`,
      its stem that of `Path(filename).parent`. */
  function Dispatch(filename: string): LoadAction {
    Decide(filename, ParentName(filename), ParentStem(filename))
  }

  /** What is printed for a file that makes no node: the `repr` of its basename, or for a
      ".p3" file its name and the summary of its unpickled contents. */
  function Diagnostics(filename: string, skip: Skip, p3Contents: PyValue): seq<string> {
    match skip
    case NotSupported => ["File type for " + StrRepr(Basename(filename)) + " is not currently supported"]
    case NotRecognized => ["File type for " + StrRepr(Basename(filename)) + " is not recognized"]
    case P3NotSupported => [
      "File type for " + filename + " is not currently supported",
      filename + " contains " + Summary(p3Contents)]
  }

  /** The node an action creates for `filename`, if any. */
  function NodeFor(filename: string, action: LoadAction): Option<Node> {
    match action
    case LoadSegmentation => Some(Node(filename, SegmentationLoader, false, true))
    case LoadVolume(_) => Some(Node(filename, VolumeLoader, false, false))
    case LoadLockedMarkups => Some(Node(filename, MarkupsLoader, true, false))
    case LoadCenterline => Some(Node(filename, CenterlineLoader, true, false))
    case NoNode(_) => None
  }

  predicate IsSegNrrd(f: string) {
    EndsWith(f, ".seg.nrrd")
  }

  predicate IsPlainNrrd(f: string) {
    EndsWith(f, ".nrrd") && !EndsWith(f, ".seg.nrrd")
  }

  /** A file whose volume is added to the show list. */
  predicate IsImageVolume(f: string) {
    IsPlainNrrd(f) && ParentName(f) == "images"
  }

  /** A file with one of the suffixes the table knows. */
  predicate HasKnownSuffix(f: string) {
    EndsWith(f, ".nrrd") || EndsWith(f, ".fcsv") || EndsWith(f, ".mha") || EndsWith(f, ".png")
    || EndsWith(f, ".p3") || EndsWith(f, ".xls")
  }

  /** ".nrrd", ".fcsv", ".mha", ".png", ".p3" and ".xls" end in six different characters,
      so a name has at most one of them: the order of those rules does not matter. */
  lemma SuffixesExclusive(f: string)
    ensures EndsWith(f, ".nrrd") ==>
              !EndsWith(f, ".fcsv") && !EndsWith(f, ".mha") && !EndsWith(f, ".png")
              && !EndsWith(f, ".p3") && !EndsWith(f, ".xls")
    ensures EndsWith(f, ".fcsv") ==>
              !EndsWith(f, ".mha") && !EndsWith(f, ".png") && !EndsWith(f, ".p3") && !EndsWith(f, ".xls")
    ensures EndsWith(f, ".mha") ==> !EndsWith(f, ".png") && !EndsWith(f, ".p3") && !EndsWith(f, ".xls")
    ensures EndsWith(f, ".png") ==> !EndsWith(f, ".p3") && !EndsWith(f, ".xls")
    ensures EndsWith(f, ".p3") ==> !EndsWith(f, ".xls")
  {
    if EndsWith(f, ".nrrd") { EndsWithLastChar(f, ".nrrd"); }
    if EndsWith(f, ".fcsv") { EndsWithLastChar(f, ".fcsv"); }
    if EndsWith(f, ".mha") { EndsWithLastChar(f, ".mha"); }
    if EndsWith(f, ".png") { EndsWithLastChar(f, ".png"); }
    if EndsWith(f, ".p3") { EndsWithLastChar(f, ".p3"); }
    if EndsWith(f, ".xls") { EndsWithLastChar(f, ".xls"); }
  }

  /** Every ".seg.nrrd" name also ends in ".nrrd", so the segmentation rule must come
      first; it applies whatever directory holds the file. */
  lemma SegNrrdFirst(f: string, directory: string, directoryStem: string)
    requires IsSegNrrd(f)
    ensures EndsWith(f, ".nrrd")
    ensures Decide(f, directory, directoryStem) == LoadSegmentation
  {
    assert f[|f| - 5..] == f[|f| - 9..][4..];
  }

  /** Each outcome of the table, stated as the exact condition that produces it. Since the
      suffixes are exclusive, each condition names one rule (two for the shared outcomes). */
  lemma DecisionTable(f: string, directory: string, directoryStem: string)
    ensures Decide(f, directory, directoryStem) == LoadVolume(true)
        <==> IsPlainNrrd(f) && directory == "images"
    ensures Decide(f, directory, directoryStem) == LoadSegmentation
        <==> IsSegNrrd(f) || (IsPlainNrrd(f) && directory == "segmentations_computed")
    ensures Decide(f, directory, directoryStem) == LoadVolume(false)
        <==> (IsPlainNrrd(f) && directory != "images" && directory != "segmentations_computed")
             || EndsWith(f, ".mha") || EndsWith(f, ".png")
    ensures Decide(f, directory, directoryStem) == LoadLockedMarkups <==> EndsWith(f, ".fcsv")
    ensures Decide(f, directory, directoryStem) == LoadCenterline
        <==> EndsWith(f, ".p3") && directoryStem == "centerline"
    ensures Decide(f, directory, directoryStem) == NoNode(P3NotSupported)
        <==> EndsWith(f, ".p3") && directoryStem != "centerline"
    ensures Decide(f, directory, directoryStem) == NoNode(NotSupported) <==> EndsWith(f, ".xls")
    ensures Decide(f, directory, directoryStem) == NoNode(NotRecognized) <==> !HasKnownSuffix(f)
  {
    SuffixesExclusive(f);
  }

  /** A volume is added to the show list exactly for a ".nrrd" (not ".seg.nrrd") file
      directly inside a directory named "images". */
  lemma ShownExactlyForImages(f: string)
    ensures Dispatch(f) == LoadVolume(true) <==> IsImageVolume(f)
  {
    DecisionTable(f, ParentName(f), ParentStem(f));
  }

  /** The segmentation loader is used exactly for ".seg.nrrd" files, wherever they are,
      and for ".nrrd" files directly inside "segmentations_computed". */
  lemma SegmentationExactly(f: string)
    ensures Dispatch(f) == LoadSegmentation
        <==> IsSegNrrd(f) || (IsPlainNrrd(f) && ParentName(f) == "segmentations_computed")
  {
    DecisionTable(f, ParentName(f), ParentStem(f));
  }

  /** A volume is loaded without being shown exactly for a ".nrrd" file in any other
      directory, and for ".mha" and ".png" files. */
  lemma HiddenVolumeExactly(f: string)
    ensures Dispatch(f) == LoadVolume(false)
        <==> (IsPlainNrrd(f) && ParentName(f) != "images" && ParentName(f) != "segmentations_computed")
             || EndsWith(f, ".mha") || EndsWith(f, ".png")
  {
    DecisionTable(f, ParentName(f), ParentStem(f));
  }

  /** Locked markups are loaded exactly for ".fcsv" files. */
  lemma MarkupsExactly(f: string)
    ensures Dispatch(f) == LoadLockedMarkups <==> EndsWith(f, ".fcsv")
  {
    DecisionTable(f, ParentName(f), ParentStem(f));
  }

  /** A centerline is made exactly from a ".p3" file whose parent directory has stem
      "centerline". */
  lemma CenterlineExactly(f: string)
    ensures Dispatch(f) == LoadCenterline <==> EndsWith(f, ".p3") && ParentStem(f) == "centerline"
  {
    DecisionTable(f, ParentName(f), ParentStem(f));
  }

  /** No node is made exactly for a ".p3" file under any other directory, for ".xls" files
      and for unknown suffixes. */
  lemma NoNodeExactly(f: string)
    ensures Dispatch(f).NoNode?
        <==> (EndsWith(f, ".p3") && ParentStem(f) != "centerline") || EndsWith(f, ".xls") || !HasKnownSuffix(f)
    ensures NodeFor(f, Dispatch(f)).None? <==> Dispatch(f).NoNode?
  {
    DecisionTable(f, ParentName(f), ParentStem(f));
  }

  /** A ".nrrd" file reached through `<root>/images/<name>` is shown. */
  lemma ImagesNrrdShown(root: string, name: string)
    requires IsEntryName(name) && EndsWith(name, ".nrrd") && !EndsWith(name, ".seg.nrrd")
    ensures Dispatch(Join(Join(root, "images"), name)) == LoadVolume(true)
  {
    JoinUnderEntry(root, "images", name);
    ParentNameOfJoin(root, "images", name);
    NrrdUnderImages(Join(root, "images"), name);
  }

  lemma NrrdUnderImages(x: string, name: string)
    requires IsEntryName(name) && EndsWith(name, ".nrrd") && !EndsWith(name, ".seg.nrrd")
    requires ParentName(x + "/" + name) == "images"
    ensures Dispatch(x + "/" + name) == LoadVolume(true)
  {
    var f := x + "/" + name;
    assert f[|f| - |name|..] == name;
    EndsWithTail(f, name, ".nrrd");
    NotEndsWithAcrossSeparator(f, name, ".seg.nrrd");
    ShownExactlyForImages(f);
  }

  lemma EndsWithTail(f: string, name: string, suffix: string)
    requires EndsWith(f, name) && EndsWith(name, suffix)
    ensures EndsWith(f, suffix)
  {
    assert f[|f| - |suffix|..] == f[|f| - |name|..][|name| - |suffix|..];
  }

  /** A suffix without a separator that the last component lacks is not a suffix of the
      whole path either. */
  lemma NotEndsWithAcrossSeparator(f: string, name: string, suffix: string)
    requires EndsWith(f, name) && !EndsWith(name, suffix) && '/' !in suffix
    requires |name| < |f| && f[|f| - |name| - 1] == '/'
    ensures !EndsWith(f, suffix)
  {
    if |suffix| <= |name| {
      assert f[|f| - |suffix|..] == f[|f| - |name|..][|name| - |suffix|..];
    } else if |suffix| <= |f| {
      assert f[|f| - |suffix|..][|suffix| - |name| - 1] == '/';
    }
  }

  // ---- The logic object --------------------------------------------------------------

  /** An item of the subject hierarchy holding a loaded node, under the subject item with
      index `parent`. */
  datatype NodeItem = NodeItem(node: Node, parent: nat)

  /** The lines `loadOneNode` prints for one file. */
  function Printed(filename: string, p3Contents: PyValue): seq<string> {
    var action := Dispatch(filename);
    if action.NoNode? then Diagnostics(filename, action.skip, p3Contents) else []
  }

  /** The lines printed while loading the files, in order. */
  function PrintedAll(files: seq<string>, contentsOf: string -> PyValue): seq<string> {
    if files == [] then []
    else PrintedAll(files[..|files| - 1], contentsOf) + Printed(files[|files| - 1], contentsOf(files[|files| - 1]))
  }

  /** The nodes `make` yields for the files, in order; a file yielding none is skipped. */
  function Collect(files: seq<string>, make: string -> Option<Node>): (nodes: seq<Node>)
    ensures |nodes| <= |files|
  {
    if files == [] then []
    else
      Collect(files[..|files| - 1], make) + ToSeq(make(files[|files| - 1]))
  }

  function ToSeq(o: Option<Node>): seq<Node> {
    if o.Some? then [o.value] else []
  }

  /** The node `loadOneNode` makes for `f`, if any. */
  function MadeNode(f: string): Option<Node> {
    NodeFor(f, Dispatch(f))
  }

  /** The node `loadOneNode` appends to the show list for `f`, if any. */
  function ShownNode(f: string): Option<Node> {
    if Dispatch(f) == LoadVolume(true) then Some(VolumeNode(f)) else None
  }

  /** The nodes the files make, in order. */
  function LoadedNodes(files: seq<string>): seq<Node> {
    Collect(files, MadeNode)
  }

  /** The volumes the files add to the show list, in order. */
  function ShownNodes(files: seq<string>): seq<Node> {
    Collect(files, ShownNode)
  }

  /** The volume `loadOneNode` makes for `f`. */
  function VolumeNode(f: string): Node {
    Node(f, VolumeLoader, false, false)
  }

  lemma {:induction false} CollectMembers(files: seq<string>, make: string -> Option<Node>)
    ensures forall n :: n in Collect(files, make) <==> exists i :: 0 <= i < |files| && make(files[i]) == Some(n)
  {
    if files != [] {
      var init := files[..|files| - 1];
      CollectMembers(init, make);
      forall n | n in Collect(files, make)
        ensures exists i :: 0 <= i < |files| && make(files[i]) == Some(n)
      {
        if n !in Collect(init, make) {
          assert make(files[|files| - 1]) == Some(n);
        } else {
          var i :| 0 <= i < |init| && make(init[i]) == Some(n);
          assert files[i] == init[i];
        }
      }
      forall n, i | 0 <= i < |files| && make(files[i]) == Some(n)
        ensures n in Collect(files, make)
      {
        if i < |init| {
          assert init[i] == files[i];
        }
      }
    }
  }

  lemma {:induction false} CollectFirst(files: seq<string>, make: string -> Option<Node>, k: nat)
    requires k < |files| && make(files[k]).Some?
    requires forall j :: 0 <= j < k ==> make(files[j]).None?
    ensures Collect(files, make) != [] && Collect(files, make)[0] == make(files[k]).value
    decreases |files|
  {
    var init := files[..|files| - 1];
    if k < |files| - 1 {
      CollectFirst(init, make, k);
    } else {
      CollectNone(init, make);
    }
  }

  lemma {:induction false} CollectNone(files: seq<string>, make: string -> Option<Node>)
    requires forall j :: 0 <= j < |files| ==> make(files[j]).None?
    ensures Collect(files, make) == []
  {
    if files != [] {
      CollectNone(files[..|files| - 1], make);
    }
  }

  /** Loading one more file appends what that file alone prints. */
  lemma PrintedAllSnoc(files: seq<string>, i: nat, contentsOf: string -> PyValue)
    requires i < |files|
    ensures PrintedAll(files[..i + 1], contentsOf) == PrintedAll(files[..i], contentsOf) + Printed(files[i], contentsOf(files[i]))
  {
    assert files[..i + 1][..i] == files[..i];
  }

  /** The nodes of one more file follow those of the files before it. */
  lemma CollectSnoc(files: seq<string>, i: nat, make: string -> Option<Node>)
    requires i < |files|
    ensures Collect(files[..i + 1], make) == Collect(files[..i], make) + ToSeq(make(files[i]))
  {
    assert files[..i + 1][..i] == files[..i];
  }

  /** The node items after one more file: those before it, then the new file's node, if
      any, under the subject. */
  lemma LoadedStep(files: seq<string>, i: nat, subject: nat, items0: seq<NodeItem>)
    requires i < |files|
    ensures items0 + Under(LoadedNodes(files[..i]), subject) + Under(ToSeq(MadeNode(files[i])), subject)
      == items0 + Under(LoadedNodes(files[..i + 1]), subject)
  {
    UnderStep(files, i, subject, items0, MadeNode);
  }

  /** `LoadedStep` for any way of making nodes. */
  lemma UnderStep(files: seq<string>, i: nat, subject: nat, items0: seq<NodeItem>, make: string -> Option<Node>)
    requires i < |files|
    ensures items0 + Under(Collect(files[..i], make), subject) + Under(ToSeq(make(files[i])), subject)
      == items0 + Under(Collect(files[..i + 1], make), subject)
  {
    CollectSnoc(files, i, make);
    UnderAppend(Collect(files[..i], make), ToSeq(make(files[i])), subject);
  }

  /** The show list after one more file: the volumes before it, then the new file's. */
  lemma ShownStep(files: seq<string>, i: nat, shown0: seq<Node>)
    requires i < |files|
    ensures shown0 + ShownNodes(files[..i]) + ToSeq(ShownNode(files[i])) == shown0 + ShownNodes(files[..i + 1])
  {
    CollectStep(files, i, shown0, ShownNode);
  }

  /** `ShownStep` for any way of making nodes. */
  lemma CollectStep(files: seq<string>, i: nat, nodes0: seq<Node>, make: string -> Option<Node>)
    requires i < |files|
    ensures nodes0 + Collect(files[..i], make) + ToSeq(make(files[i])) == nodes0 + Collect(files[..i + 1], make)
  {
    CollectSnoc(files, i, make);
  }

  function Under(nodes: seq<Node>, parent: nat): seq<NodeItem>
  {
    seq(|nodes|, i requires 0 <= i < |nodes| => NodeItem(nodes[i], parent))
  }

  lemma UnderAppend(a: seq<Node>, b: seq<Node>, parent: nat)
    ensures Under(a + b, parent) == Under(a, parent) + Under(b, parent)
  {
  }

  /** A node on the show list: an unlocked volume made from an image file. */
  predicate IsShowable(n: Node) {
    n.loader == VolumeLoader && !n.locked && IsImageVolume(n.source)
  }

  lemma ShownNodeOfImage(f: string)
    ensures ShownNode(f) == if IsImageVolume(f) then Some(VolumeNode(f)) else None
  {
    ShownExactlyForImages(f);
  }

  /** The show list holds exactly the volumes of the image files. */
  lemma ShownNodesMembers(files: seq<string>)
    ensures forall n :: (n in ShownNodes(files)
                         <==> exists i :: 0 <= i < |files| && IsImageVolume(files[i]) && n == VolumeNode(files[i]))
    ensures forall n :: n in ShownNodes(files) ==> IsShowable(n)
  {
    CollectMembers(files, ShownNode);
    forall i | 0 <= i < |files| ensures ShownNode(files[i]) == if IsImageVolume(files[i]) then Some(VolumeNode(files[i])) else None {
      ShownNodeOfImage(files[i]);
    }
  }

  /** The first node on the show list is the volume of the first image file. */
  lemma FirstShown(files: seq<string>, k: nat)
    requires k < |files| && IsImageVolume(files[k])
    requires forall j :: 0 <= j < k ==> !IsImageVolume(files[j])
    ensures ShownNodes(files) != []
    ensures ShownNodes(files)[0] == VolumeNode(files[k])
  {
    forall i | 0 <= i < |files| ensures ShownNode(files[i]) == if IsImageVolume(files[i]) then Some(VolumeNode(files[i])) else None {
      ShownNodeOfImage(files[i]);
    }
    CollectFirst(files, ShownNode, k);
  }

  /** The volume `arrangeView` brings to the foreground after the files are loaded into a
      cleared hierarchy: the first on the show list, or none when no file is an image. */
  function FirstShownNode(files: seq<string>): (r: Option<Node>)
    ensures r.None? <==> forall i :: 0 <= i < |files| ==> !IsImageVolume(files[i])
    ensures r.Some? ==> IsShowable(r.value) && exists i :: 0 <= i < |files| && r.value == VolumeNode(files[i])
  {
    ShownNodesHead(files);
    var shown := ShownNodes(files);
    if shown != [] then Some(shown[0]) else None
  }

  lemma ShownNodesHead(files: seq<string>)
    ensures ShownNodes(files) == [] <==> forall i :: 0 <= i < |files| ==> !IsImageVolume(files[i])
    ensures ShownNodes(files) != [] ==>
              IsShowable(ShownNodes(files)[0])
              && exists i :: 0 <= i < |files| && ShownNodes(files)[0] == VolumeNode(files[i])
  {
    ShownNodesMembers(files);
    var shown := ShownNodes(files);
    if shown != [] {
      assert shown[0] in shown;
    } else {
      forall i | 0 <= i < |files| ensures !IsImageVolume(files[i]) {
        ShownNodeOfImage(files[i]);
        CollectMembers(files, ShownNode);
      }
    }
  }

  /** The parameter node of the module: named string parameters, "" when unset. */
  class ParameterNode {
    var parameters: map<string, string>

    constructor(parameters: map<string, string>)
      ensures this.parameters == parameters
    {
      this.parameters := parameters;
    }

    /** `GetParameter(name)`: a parameter that is unset and one set to "" read alike,
        which is what `not parameterNode.GetParameter(name)` tests. */
    function GetParameter(name: string): (value: string)
      reads this
      ensures value == "" <==> name !in parameters || parameters[name] == ""
      ensures value != "" ==> name in parameters && parameters[name] == value
    {
      if name in parameters then parameters[name] else ""
    }

    method SetParameter(name: string, value: string)
      modifies this
      ensures parameters == old(parameters)[name := value]
    {
      parameters := parameters[name := value];
    }
  }

  /** The parameters after `setDefaultParameters`: an unset or empty parameter gets its
      default, every other parameter is kept. */
  function WithDefaults(parameters: map<string, string>): (r: map<string, string>)
    ensures "Threshold" in r && r["Threshold"] != ""
    ensures "Invert" in r && r["Invert"] != ""
    ensures ("Threshold" !in parameters || parameters["Threshold"] == "") ==> r["Threshold"] == "100.0"
    ensures ("Invert" !in parameters || parameters["Invert"] == "") ==> r["Invert"] == "false"
    ensures forall k :: k in parameters && parameters[k] != "" ==> k in r && r[k] == parameters[k]
    ensures forall k :: k != "Threshold" && k != "Invert" ==> (k in r <==> k in parameters)
    ensures forall k :: k in parameters && k != "Threshold" && k != "Invert" ==> r[k] == parameters[k]
  {
    var withThreshold :=
      if "Threshold" !in parameters || parameters["Threshold"] == "" then parameters["Threshold" := "100.0"]
      else parameters;
    if "Invert" !in withThreshold || withThreshold["Invert"] == "" then withThreshold["Invert" := "false"]
    else withThreshold
  }

  /** Setting the defaults twice is setting them once. */
  lemma WithDefaultsIdempotent(parameters: map<string, string>)
    ensures WithDefaults(WithDefaults(parameters)) == WithDefaults(parameters)
  {
  }

  /** `VPAWVisualizeLogic`: the show list, the subject hierarchy it fills and the volume
      in the slice viewers' foreground. */
  class VisualizeLogic {
    var showNodes: seq<Node>
    var subjects: seq<string>
    var nodeItems: seq<NodeItem>
    var foreground: Option<Node>

    /** Every node item hangs under an existing subject item, and the show list and the
        foreground hold only volumes of image files. */
    predicate Valid()
      reads this
    {
      && (forall i :: 0 <= i < |nodeItems| ==> nodeItems[i].parent < |subjects|)
      && (forall n :: n in showNodes ==> IsShowable(n))
      && (foreground.Some? ==> IsShowable(foreground.value))
    }

    constructor()
      ensures Valid()
      ensures showNodes == [] && subjects == [] && nodeItems == [] && foreground == None
    {
      showNodes := [];
      subjects := [];
      nodeItems := [];
      foreground := None;
    }

    /** `clearSubjectHierarchy`: removes every item together with its data node, so the
        volume in the foreground goes too, and empties the show list. */
    method ClearSubjectHierarchy()
      modifies this
      ensures Valid()
      ensures showNodes == [] && subjects == [] && nodeItems == []
      ensures foreground == None
    {
      subjects := [];
      nodeItems := [];
      showNodes := [];
      foreground := None;
    }

    /** `loadOneNode`: the node the file makes, if any, and the lines printed when it
        makes none; an image volume is also appended to the show list. */
    method LoadOneNode(filename: string, p3Contents: PyValue) returns (node: Option<Node>, printed: seq<string>)
      requires Valid()
      modifies this
      ensures Valid()
      ensures node == MadeNode(filename)
      ensures printed == Printed(filename, p3Contents)
      ensures showNodes == old(showNodes) + ToSeq(ShownNode(filename))
      ensures subjects == old(subjects) && nodeItems == old(nodeItems) && foreground == old(foreground)
    {
      var action := Dispatch(filename);
      node := NodeFor(filename, action);
      printed := if action.NoNode? then Diagnostics(filename, action.skip, p3Contents) else [];
      if action == LoadVolume(true) {
        ShownExactlyForImages(filename);
        showNodes := showNodes + [node.value];
      }
    }

    /** `loadOneNodeToSubjectHierarchy`: a file that makes no node leaves the hierarchy
        alone; otherwise its node is placed under the subject item. */
    method LoadOneNodeToSubjectHierarchy(subject: nat, filename: string, p3Contents: PyValue)
      returns (printed: seq<string>)
      requires Valid() && subject < |subjects|
      modifies this
      ensures Valid()
      ensures printed == Printed(filename, p3Contents)
      ensures nodeItems == old(nodeItems) + Under(ToSeq(MadeNode(filename)), subject)
      ensures showNodes == old(showNodes) + ToSeq(ShownNode(filename))
      ensures subjects == old(subjects) && foreground == old(foreground)
    {
      var node;
      node, printed := LoadOneNode(filename, p3Contents);
      if node.None? {
        return;
      }
      nodeItems := nodeItems + [NodeItem(node.value, subject)];
    }

    /** `loadNodesToSubjectHierarchy`: a new subject item, then every file's node under
        it, in list order. */
    method LoadNodesToSubjectHierarchy(files: seq<string>, subjectName: string, contentsOf: string -> PyValue)
      returns (printed: seq<string>)
      requires Valid()
      modifies this
      ensures Valid()
      ensures printed == PrintedAll(files, contentsOf)
      ensures subjects == old(subjects) + [subjectName]
      ensures nodeItems == old(nodeItems) + Under(LoadedNodes(files), |old(subjects)|)
      ensures showNodes == old(showNodes) + ShownNodes(files)
      ensures foreground == old(foreground)
    {
      var subject := |subjects|;
      subjects := subjects + [subjectName];
      printed := [];
      ghost var items0, shown0 := nodeItems, showNodes;
      for i := 0 to |files|
        invariant Valid()
        invariant subjects == old(subjects) + [subjectName] && foreground == old(foreground)
        invariant nodeItems == items0 + Under(LoadedNodes(files[..i]), subject)
        invariant showNodes == shown0 + ShownNodes(files[..i])
        invariant printed == PrintedAll(files[..i], contentsOf)
      {
        printed := LoadNext(files, i, subject, contentsOf, printed, items0, shown0);
      }
      assert files[..|files|] == files;
    }

    /** One turn of the loop of `loadNodesToSubjectHierarchy`: the file at index `i` is
        loaded, extending what the files before it gave. */
    method LoadNext(files: seq<string>, i: nat, subject: nat, contentsOf: string -> PyValue,
                    printed: seq<string>, ghost items0: seq<NodeItem>, ghost shown0: seq<Node>)
      returns (printed': seq<string>)
      requires Valid() && i < |files| && subject < |subjects|
      requires nodeItems == items0 + Under(LoadedNodes(files[..i]), subject)
      requires showNodes == shown0 + ShownNodes(files[..i])
      requires printed == PrintedAll(files[..i], contentsOf)
      modifies this
      ensures Valid()
      ensures nodeItems == items0 + Under(LoadedNodes(files[..i + 1]), subject)
      ensures showNodes == shown0 + ShownNodes(files[..i + 1])
      ensures printed' == PrintedAll(files[..i + 1], contentsOf)
      ensures subjects == old(subjects) && foreground == old(foreground)
    {
      var lines := LoadOneNodeToSubjectHierarchy(subject, files[i], contentsOf(files[i]));
      printed' := printed + lines;
      PrintedAllSnoc(files, i, contentsOf);
      LoadedStep(files, i, subject, items0);
      ShownStep(files, i, shown0);
    }

    /** `arrangeView`: the first volume on the show list, if any, goes to the foreground;
        the show list is emptied either way. */
    method ArrangeView()
      requires Valid()
      modifies this
      ensures Valid()
      ensures foreground == if old(showNodes) != [] then Some(old(showNodes)[0]) else old(foreground)
      ensures foreground.Some? ==> IsShowable(foreground.value)
      ensures showNodes == []
      ensures subjects == old(subjects) && nodeItems == old(nodeItems)
    {
      if showNodes != [] {
        foreground := Some(showNodes[0]);
      }
      showNodes := [];
    }

    /** `setDefaultParameters` */
    method SetDefaultParameters(parameterNode: ParameterNode)
      modifies parameterNode
      ensures parameterNode.parameters == WithDefaults(old(parameterNode.parameters))
    {
      if parameterNode.GetParameter("Threshold") == "" {
        parameterNode.SetParameter("Threshold", "100.0");
      }
      if parameterNode.GetParameter("Invert") == "" {
        parameterNode.SetParameter("Invert", "false");
      }
    }

    /** `onShowButton`: discover the files of the subject, rebuild the hierarchy under one
        subject item named after the prefix ("All" for the empty prefix) and bring the first
        image volume, if any, to the foreground; without one the foreground is empty, since
        clearing removed its volume. A failed discovery changes nothing. */
    method ShowPatientData(fs: map<string, Entry>, dataDirectory: string, patientPrefix: string,
                           contentsOf: string -> PyValue)
      returns (r: Result<seq<string>, DiscoveryError>)
      requires Valid()
      modifies this
      ensures Valid()
      ensures !IsDirectory(fs, dataDirectory) ==> r == Failure(InvalidDataDirectory)
      ensures r.Failure? ==>
                showNodes == old(showNodes) && subjects == old(subjects)
                && nodeItems == old(nodeItems) && foreground == old(foreground)
      ensures IsDirectory(fs, dataDirectory) ==>
        && r == Success(SortedPaths(dataDirectory, fs[dataDirectory], patientPrefix))
        && subjects == [if patientPrefix != "" then patientPrefix else "All"]
        && nodeItems == Under(LoadedNodes(r.value), 0)
        && showNodes == []
        && foreground == FirstShownNode(r.value)
    {
      r := FindAndSortFilesWithPrefix(fs, Str(dataDirectory), Str(patientPrefix));
      if r.Failure? {
        return;
      }
      var subjectName := if patientPrefix != "" then patientPrefix else "All";
      ClearSubjectHierarchy();
      var _ := LoadNodesToSubjectHierarchy(r.value, subjectName, contentsOf);
      ArrangeView();
    }
  }

  /** After showing a subject whose discovery found the image file with index `k` of the
      sorted records first among the image files, the foreground holds its volume, and no
      discovered image file is older. */
  lemma OldestImageInForeground(root: string, e: Entry, prefix: string, k: nat)
    requires var rs := SortByMtime(Find(root, e, prefix, false));
      && k < |rs| && IsImageVolume(rs[k].path)
      && forall j :: 0 <= j < k ==> !IsImageVolume(rs[j].path)
    ensures var rs := SortByMtime(Find(root, e, prefix, false));
      && FirstShownNode(SortedPaths(root, e, prefix)) == Some(VolumeNode(rs[k].path))
      && forall r :: r in Find(root, e, prefix, false) && IsImageVolume(r.path) ==> rs[k].mtime <= r.mtime
  {
    var found := Find(root, e, prefix, false);
    var rs := SortByMtime(found);
    var files := SortedPaths(root, e, prefix);
    assert files == Paths(rs);
    assert files[k] == rs[k].path;
    forall j | 0 <= j < k ensures !IsImageVolume(files[j]) {
      assert files[j] == rs[j].path;
    }
    FirstShown(files, k);
    SortByMtimeSortedPermutation(found);
    FirstMatchIsOldest(found, rs, IsImageVolume, k);
  }

  /** In a sorted permutation of `found`, the first record passing `test` is no newer
      than any record of `found` passing it. */
  lemma FirstMatchIsOldest(found: seq<Record>, rs: seq<Record>, test: string -> bool, k: nat)
    requires SortedByMtime(rs) && multiset(rs) == multiset(found)
    requires k < |rs| && test(rs[k].path) && forall j :: 0 <= j < k ==> !test(rs[j].path)
    ensures forall r :: r in found && test(r.path) ==> rs[k].mtime <= r.mtime
  {
    forall r | r in found && test(r.path) ensures rs[k].mtime <= r.mtime {
      assert r in multiset(rs);
      var j :| 0 <= j < |rs| && rs[j] == r;
    }
  }
}

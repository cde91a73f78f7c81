/**
 * Decision-tree induction and descent of src/ai/ml/random-forest-model.ts:
 * `buildTree`, `createLeafNode` and `predictTree`.
 */
module DecisionTree {
  import opened Wrappers
  import opened Features
  import opened Counting
  import opened Impurity
  import opened Splitting

  /**
   * The `TreeNode` record: a leaf carries a prediction, an internal node a
   * feature, a threshold and two children. Both record the number of samples
   * they were built from.
   */
  datatype Tree =
    | Leaf(prediction: string, samples: nat)
    | Node(feature: Feature, threshold: real, left: Tree, right: Tree, samples: nat)

  /** The route from the root to a node, `true` for each step into a left child; its length is the depth. */
  type Path = seq<bool>

  /** The feature order drawn by `findBestSplit` at each node, identified by its path. */
  type FeatureOrders = Path -> seq<Feature>

  /** The classifier's `maxDepth` and `minSamples`, as given to its constructor. */
  datatype Params = Params(maxDepth: int, minSamples: int)

  // ---- createLeafNode ----

  /** Where a scan that replaces its best only on `count > maxCount` ends. */
  function FirstArgMax(cs: seq<nat>): (k: nat)
    requires |cs| > 0
    ensures k < |cs|
    ensures forall j :: 0 <= j < |cs| ==> cs[j] <= cs[k]
    ensures forall j :: 0 <= j < k ==> cs[j] < cs[k]
  {
    if |cs| == 1 then 0
    else
      var prev := FirstArgMax(cs[..|cs| - 1]);
      if cs[|cs| - 1] > cs[prev] then |cs| - 1 else prev
  }

  function Counts(t: seq<Entry<string>>): (cs: seq<nat>)
    ensures |cs| == |t|
    ensures forall i :: 0 <= i < |t| ==> cs[i] == t[i].count
  {
    seq(|t|, i requires 0 <= i < |t| => t[i].count)
  }

  /**
   * The label `createLeafNode` predicts: one of greatest count, the first to
   * occur among those that tie, and the empty string for no labels.
   */
  function Plurality(labels: seq<string>): (p: string)
    ensures |labels| == 0 ==> p == ""
    ensures |labels| > 0 ==> p in labels
    ensures forall l :: Occurrences(labels, l) <= Occurrences(labels, p)
    ensures |labels| > 0 ==>
      (forall l :: l in labels && Occurrences(labels, l) == Occurrences(labels, p)
         ==> FirstIndex(labels, p) <= FirstIndex(labels, l))
  {
    if |labels| == 0 then ""
    else
      PickIsPlurality(labels);
      Pick(labels)
  }

  /** The key at the first greatest count of the tally. */
  function Pick(labels: seq<string>): string
    requires |labels| > 0
  {
    var t := Tally(labels);
    assert KeyIn(t, labels[0]);
    t[FirstArgMax(Counts(t))].key
  }

  lemma PickIsPlurality(labels: seq<string>)
    requires |labels| > 0
    ensures var p := Pick(labels);
      && p in labels
      && (forall l :: Occurrences(labels, l) <= Occurrences(labels, p))
      && (forall l :: l in labels && Occurrences(labels, l) == Occurrences(labels, p)
           ==> FirstIndex(labels, p) <= FirstIndex(labels, l))
  {
    var t := Tally(labels);
    assert KeyIn(t, labels[0]);
    var cs := Counts(t);
    var k := FirstArgMax(cs);
    assert Pick(labels) == t[k].key;
    forall l ensures Occurrences(labels, l) <= Occurrences(labels, t[k].key) {
      PickBeatsOthers(labels, t, cs, k, l);
    }
    PickFirstAmongTies(labels, t, cs, k);
  }

  lemma PickFirstAmongTies(labels: seq<string>, t: seq<Entry<string>>, cs: seq<nat>, k: nat)
    requires t == Tally(labels) && cs == Counts(t) && k < |t|
    requires forall j :: 0 <= j < k ==> cs[j] < cs[k]
    ensures forall l ::
      (l in labels && Occurrences(labels, l) == Occurrences(labels, t[k].key)
       ==> FirstIndex(labels, t[k].key) <= FirstIndex(labels, l))
  {
    TallyFollowsFirstOccurrence(labels);
    forall l | l in labels && Occurrences(labels, l) == Occurrences(labels, t[k].key)
      ensures FirstIndex(labels, t[k].key) <= FirstIndex(labels, l)
    {
      var j := TallyIndex(labels, l);
      assert cs[j] == t[j].count && cs[k] == t[k].count;
      if k < j {
        assert FirstIndex(labels, t[k].key) < FirstIndex(labels, t[j].key);
      }
    }
  }

  /** The position of a label in the tally of the labels. */
  function TallyIndex(labels: seq<string>, l: string): (j: nat)
    requires l in labels
    ensures j < |Tally(labels)| && Tally(labels)[j].key == l
  {
    var t := Tally(labels);
    var i :| 0 <= i < |labels| && labels[i] == l;
    assert KeyIn(t, labels[i]);
    var j :| 0 <= j < |t| && t[j].key == l;
    j
  }

  lemma PickBeatsOthers(labels: seq<string>, t: seq<Entry<string>>, cs: seq<nat>, k: nat, l: string)
    requires t == Tally(labels) && cs == Counts(t) && k < |t|
    requires forall j :: 0 <= j < |cs| ==> cs[j] <= cs[k]
    ensures Occurrences(labels, l) <= Occurrences(labels, t[k].key)
  {
    OccurrencesPositive(labels, l);
    if l in labels {
      var j := TallyIndex(labels, l);
      assert cs[j] == t[j].count;
    }
  }

  /**
   * `createLeafNode`: a leaf over `data` predicting a label of greatest count,
   * the first to occur on ties, or `""` for empty data.
   */
  function CreateLeafNode(data: seq<Sample>): (leaf: Tree)
    ensures leaf.Leaf? && leaf.samples == |data|
    ensures |data| == 0 ==> leaf.prediction == ""
    ensures |data| > 0 ==> leaf.prediction in Labels(data)
    ensures forall l :: Occurrences(Labels(data), l) <= Occurrences(Labels(data), leaf.prediction)
    ensures |data| > 0 ==>
      (forall l :: l in Labels(data)
         && Occurrences(Labels(data), l) == Occurrences(Labels(data), leaf.prediction)
         ==> FirstIndex(Labels(data), leaf.prediction) <= FirstIndex(Labels(data), l))
  {
    Leaf(Plurality(Labels(data)), |data|)
  }

  // ---- buildTree ----

  /**
   * `buildTree(data, depth)` at the node reached by `path` (depth `|path|`):
   * a leaf once the depth limit or the sample minimum is hit or no split is
   * found, otherwise a node over the best split with both sides built one
   * level deeper.
   */
  function BuildTree(p: Params, orders: FeatureOrders, data: seq<Sample>, path: Path): (tree: Tree)
    ensures tree.samples == |data|
    ensures tree.Leaf? ==> tree == CreateLeafNode(data)
    decreases |data|
  {
    if |path| >= p.maxDepth || |data| < p.minSamples then CreateLeafNode(data)
    else
      match FindBestSplit(data, orders(path))
      case None => CreateLeafNode(data)
      case Some(s) =>
        var left := Side(data, s.feature, s.threshold, true);
        var right := Side(data, s.feature, s.threshold, false);
        if |left| == 0 || |right| == 0 then CreateLeafNode(data)
        else
          PartitionSizes(data, s.feature, s.threshold);
          Node(s.feature, s.threshold,
            BuildTree(p, orders, left, path + [true]),
            BuildTree(p, orders, right, path + [false]),
            |data|)
  }

  /** Every node's children hold at least one sample each, and their counts add up to the node's. */
  predicate WellFormed(tree: Tree)
  {
    match tree
    case Leaf(_, _) => true
    case Node(_, _, l, r, n) =>
      && l.samples > 0 && r.samples > 0 && l.samples + r.samples == n
      && WellFormed(l) && WellFormed(r)
  }

  function Height(tree: Tree): nat
  {
    match tree
    case Leaf(_, _) => 0
    case Node(_, _, l, r, _) => 1 + (if Height(l) < Height(r) then Height(r) else Height(l))
  }

  /** Depth and sample-count stopping rules: the tree is a leaf once either applies. */
  lemma StopsAtLimits(p: Params, orders: FeatureOrders, data: seq<Sample>, path: Path)
    requires |path| >= p.maxDepth || |data| < p.minSamples
    ensures BuildTree(p, orders, data, path) == CreateLeafNode(data)
  {
  }

  /**
   * An internal node of a built tree splits its data at its own feature and
   * threshold into two non-empty sides, and its children are the trees built
   * from those sides one level deeper.
   */
  lemma NodeChildren(p: Params, orders: FeatureOrders, data: seq<Sample>, path: Path)
    requires BuildTree(p, orders, data, path).Node?
    ensures var t := BuildTree(p, orders, data, path);
      var left, right := Side(data, t.feature, t.threshold, true), Side(data, t.feature, t.threshold, false);
      && |path| < p.maxDepth && |data| >= p.minSamples
      && FindBestSplit(data, orders(path)) == Some(Split(t.feature, t.threshold))
      && 0 < |left| && 0 < |right| && |left| + |right| == |data|
      && t.left == BuildTree(p, orders, left, path + [true])
      && t.right == BuildTree(p, orders, right, path + [false])
  {
    var s := FindBestSplit(data, orders(path)).value;
    PartitionSizes(data, s.feature, s.threshold);
  }

  /** Every node of a built tree has two non-empty sides whose sample counts add up to its own. */
  lemma {:induction false} BuildTreeWellFormed(p: Params, orders: FeatureOrders, data: seq<Sample>, path: Path)
    ensures WellFormed(BuildTree(p, orders, data, path))
    decreases |data|
  {
    var t := BuildTree(p, orders, data, path);
    if t.Node? {
      NodeChildren(p, orders, data, path);
      BuildTreeWellFormed(p, orders, Side(data, t.feature, t.threshold, true), path + [true]);
      BuildTreeWellFormed(p, orders, Side(data, t.feature, t.threshold, false), path + [false]);
    }
  }

  /** A built tree is no deeper than the depth budget left at `path`. */
  lemma {:induction false} BuildTreeHeight(p: Params, orders: FeatureOrders, data: seq<Sample>, path: Path)
    ensures |path| >= p.maxDepth ==> Height(BuildTree(p, orders, data, path)) == 0
    ensures |path| < p.maxDepth ==> |path| + Height(BuildTree(p, orders, data, path)) <= p.maxDepth
    decreases |data|
  {
    var t := BuildTree(p, orders, data, path);
    if t.Node? {
      NodeChildren(p, orders, data, path);
      var pl, pr := path + [true], path + [false];
      BuildTreeHeight(p, orders, Side(data, t.feature, t.threshold, true), pl);
      BuildTreeHeight(p, orders, Side(data, t.feature, t.threshold, false), pr);
      assert |pl| == |pr| == |path| + 1;
      assert |pl| + Height(t.left) <= p.maxDepth && |pr| + Height(t.right) <= p.maxDepth;
      HeightAtNode(t);
    }
  }

  lemma HeightAtNode(t: Tree)
    requires t.Node?
    ensures Height(t) == 1 + (if Height(t.left) < Height(t.right) then Height(t.right) else Height(t.left))
  {
  }

  /**
   * Within the limits, a leaf appears exactly when every feature chosen at
   * the node is constant on its data.
   */
  lemma SplitsWhenPossible(p: Params, orders: FeatureOrders, data: seq<Sample>, path: Path)
    requires |path| < p.maxDepth && |data| >= p.minSamples
    ensures BuildTree(p, orders, data, path).Leaf? <==> AllConstant(data, SelectFeatures(orders(path)))
  {
    if FindBestSplit(data, orders(path)).Some? {
      SplitSeparates(data, orders(path));
    }
  }

  // ---- predictTree ----

  /**
   * `predictTree`: descend by `value <= threshold` to the left, otherwise to
   * the right, and answer the prediction of the leaf at the end of the
   * input's route.
   */
  function PredictTree(tree: Tree, x: CropFeatures): (crop: string)
    ensures RoutedTo(tree, x, crop)
  {
    match tree
    case Leaf(prediction, _) =>
      assert Reaches(tree, x, []);
      prediction
    case Node(f, t, l, r, _) =>
      var crop := if Value(x, f) <= t then PredictTree(l, x) else PredictTree(r, x);
      RouteThroughChild(tree, x, crop);
      crop
  }

  /** Some route of `x` through `tree` ends at a leaf predicting `crop`. */
  ghost predicate RoutedTo(tree: Tree, x: CropFeatures, crop: string)
  {
    exists route :: Reaches(tree, x, route) && Follow(tree, route) == Leaf(crop, Follow(tree, route).samples)
  }

  /** A route through the child `x` descends into extends to one through the node. */
  lemma RouteThroughChild(tree: Tree, x: CropFeatures, crop: string)
    requires tree.Node?
    requires RoutedTo(if Value(x, tree.feature) <= tree.threshold then tree.left else tree.right, x, crop)
    ensures RoutedTo(tree, x, crop)
  {
    var goLeft := Value(x, tree.feature) <= tree.threshold;
    var child := if goLeft then tree.left else tree.right;
    var sub :| Reaches(child, x, sub) && Follow(child, sub) == Leaf(crop, Follow(child, sub).samples);
    assert ([goLeft] + sub)[1..] == sub;
    assert Reaches(tree, x, [goLeft] + sub);
  }

  /**
   * `route` leads from the root of `tree` to a leaf, turning left exactly at
   * the nodes where `x` is at most the threshold.
   */
  predicate Reaches(tree: Tree, x: CropFeatures, route: Path)
  {
    match tree
    case Leaf(_, _) => route == []
    case Node(f, t, l, r, _) =>
      |route| > 0 && route[0] == (Value(x, f) <= t)
      && Reaches(if route[0] then l else r, x, route[1..])
  }

  /** The subtree at the end of `route`, stopping early at a leaf. */
  function Follow(tree: Tree, route: Path): Tree
    decreases |route|
  {
    match tree
    case Leaf(_, _) => tree
    case Node(_, _, l, r, _) =>
      if |route| == 0 then tree else Follow(if route[0] then l else r, route[1..])
  }

  /** Each input has exactly one route, and it ends at a leaf. */
  lemma {:induction false} RouteIsUnique(tree: Tree, x: CropFeatures, a: Path, b: Path)
    requires Reaches(tree, x, a) && Reaches(tree, x, b)
    ensures a == b && Follow(tree, a).Leaf?
  {
    match tree
    case Leaf(_, _) =>
    case Node(f, t, l, r, _) =>
      RouteIsUnique(if a[0] then l else r, x, a[1..], b[1..]);
      assert a == [a[0]] + a[1..] && b == [b[0]] + b[1..];
  }

  /** A value exactly at a node's threshold descends into the left child. */
  lemma ThresholdGoesLeft(tree: Tree, x: CropFeatures)
    requires tree.Node? && Value(x, tree.feature) == tree.threshold
    ensures PredictTree(tree, x) == PredictTree(tree.left, x)
  {
  }

  /** Each leaf label of a tree built from non-empty data is a label of that data. */
  lemma {:induction false} PredictionsComeFromData(p: Params, orders: FeatureOrders, data: seq<Sample>, path: Path, x: CropFeatures)
    requires |data| > 0
    ensures PredictTree(BuildTree(p, orders, data, path), x) in Labels(data)
    decreases |data|
  {
    var t := BuildTree(p, orders, data, path);
    if t.Node? {
      var goLeft := Value(x, t.feature) <= t.threshold;
      var side := Side(data, t.feature, t.threshold, goLeft);
      ChildPredicts(p, orders, data, path, x);
      PredictionsComeFromData(p, orders, side, path + [goLeft], x);
      SideLabelsComeFromData(data, t.feature, t.threshold, goLeft, PredictTree(t, x));
    }
  }

  /** At an internal node the prediction is that of the child the input descends into. */
  lemma ChildPredicts(p: Params, orders: FeatureOrders, data: seq<Sample>, path: Path, x: CropFeatures)
    requires BuildTree(p, orders, data, path).Node?
    ensures var t := BuildTree(p, orders, data, path);
      var goLeft := Value(x, t.feature) <= t.threshold;
      var side := Side(data, t.feature, t.threshold, goLeft);
      && 0 < |side| < |data|
      && PredictTree(t, x) == PredictTree(BuildTree(p, orders, side, path + [goLeft]), x)
  {
    var t := BuildTree(p, orders, data, path);
    NodeChildren(p, orders, data, path);
    var left, right := Side(data, t.feature, t.threshold, true), Side(data, t.feature, t.threshold, false);
    assert 0 < |left| < |data| && 0 < |right| < |data|;
    DescendOne(t, x);
  }

  lemma DescendOne(t: Tree, x: CropFeatures)
    requires t.Node?
    ensures PredictTree(t, x) == PredictTree(if Value(x, t.feature) <= t.threshold then t.left else t.right, x)
  {
  }

  lemma SideLabelsComeFromData(data: seq<Sample>, f: Feature, threshold: real, left: bool, crop: string)
    requires crop in Labels(Side(data, f, threshold, left))
    ensures crop in Labels(data)
  {
    var side := Side(data, f, threshold, left);
    var i :| 0 <= i < |side| && Labels(side)[i] == crop;
    assert side[i] in data;
    var j :| 0 <= j < |data| && data[j] == side[i];
    assert Labels(data)[j] == crop;
  }

  /** A tree built from data of a single label predicts that label everywhere, however it splits. */
  lemma PureDataPredictsItsLabel(p: Params, orders: FeatureOrders, data: seq<Sample>, path: Path, x: CropFeatures)
    requires |data| > 0 && SingleLabel(data)
    ensures PredictTree(BuildTree(p, orders, data, path), x) == data[0].crop
  {
    PredictionsComeFromData(p, orders, data, path, x);
  }
}

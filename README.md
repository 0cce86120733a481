# SMPD classifiers and probe utilities in Dafny

SMPD is a small Java toolkit for pattern recognition. A data set is a map from a
class name to a matrix of probes: one row per attribute, one column per probe.

The toolkit has three layers.

- **Preparation.** The toolkit splits such maps into `<class>_training` and
  `<class>_test` sets. It can split by holdout, k-fold cross-validation or
  bootstrap. It can also separate a mixed matrix into per-class matrices, and it
  can select attributes by greedy forward selection (SFS) or by an exhaustive
  search over combinations.
- **Classifiers.** Four classifiers score a split and report the share of test
  probes they classify correctly, as a percentage:
  - nearest neighbour (NN);
  - k nearest neighbours (KNN);
  - nearest mean with a Mahalanobis-style distance (NM);
  - k nearest modes (KNM), which first groups each class into clusters with
    k-means.
- **Utilities.** These are the k-means cluster finder, column extraction, and
  the structural part of a Moore–Penrose pseudoinverse.

The model follows the code class by class.

- **Classes with fields become Dafny classes.** `NMClassifier`, `KNNClassifier`,
  `KNMClassifier`, `FeatureSelector` and `ProbePerClassSeparator` keep their fields
  and are updated in place.
- **Most loops become methods.** Most loops in the source are Dafny methods with a
  `while` loop. Each method is proved equal to a specification function, and the
  properties the source promises are proved as lemmas about those functions. The
  fold loop of cross-validation and the trial loop of bootstrap are the exception:
  they are modelled as functions on values (see "Left out").
- **Value types become datatypes.** `ProbeDistance` has final fields only, so it
  is a datatype.

Representation choices:

- Numbers are `real`. A matrix is `seq<seq<real>>`, indexed attribute first.
- A Java `HashMap` or `HashSet` is an association list `seq<(string, V)>`. Its
  iteration order is the list order, so every tie-break is explicit.
- A Java exception, or a loop that never ends, is an `Err` value of `Outcomes.Failure`.

Modules:

- `Matrices`, `LinearAlgebra`: matrices, `getProbe`, the pseudoinverse.
- `Scoring`, `Text`: the split into training and test keys, the arg-min with a
  sentinel, the success test, the accuracy ratio.
- `Sorting`, `ProbeDistances`: `ProbeDistance` and sorting by distance.
- `Knn`, `Nn`, `Nm`, `Knm`: the four classifiers.
- `Clusters`: `ClusterFinder`.
- `Splitter`, `Separator`, `FeatureSelection`: data preparation.

## Model

All source paths are under `src/`.

| member | source | states |
|---|---|---|
| Matrices.GetProbe | src/probesUtilities/MatrixUtilities.java:10-16 | the probe has one entry per attribute row and entry `a` is `matrix[a][probeIndex]` |
| Matrices.Column | src/probesUtilities/MatrixUtilities.java:10-16 | the column of a probe matrix: length = row count, entry `a` = `m[a][p]` |
| Matrices.Transpose | src/probesUtilities/MatrixUtilities.java:27-29 | the transpose swaps the dimensions and `t[c][a] == m[a][c]` |
| Matrices.TransposeTwice | src/probesUtilities/MatrixUtilities.java:27-29 | transposing twice gives the matrix back, so the wide-matrix branch round-trips |
| Matrices.MeanVector | src/probesUtilities/ClusterFinder.java:90-103 | the per-row mean is undefined (0/0) iff some row is empty; otherwise `mean[a] * length == sum of row a` |
| Matrices.MeanOfRows | src/probesUtilities/ClusterFinder.java:90-103 | the accumulating loop computes `MeanVector` |
| Matrices.RowSum | src/probesUtilities/FeatureSelector.java:140 | the loop sum of a row equals `Sum(row)` |
| LinearAlgebra.PseudoinverseMoorePenrose | src/probesUtilities/MatrixUtilities.java:23-58 | the method, including its recursive transposed call, returns the `Pseudoinverse` specification |
| LinearAlgebra.Pseudoinverse | src/probesUtilities/MatrixUtilities.java:23-58 | a non-null result is a cols × rows matrix |
| LinearAlgebra.PseudoinverseNullIffRankZero | src/probesUtilities/MatrixUtilities.java:34-36 | the result is null exactly when the SVD of the (oriented) matrix has rank < 1 |
| LinearAlgebra.WideMatrixThroughTranspose | src/probesUtilities/MatrixUtilities.java:26-32 | for rows < cols the result is the transposed pseudoinverse of the transpose, and null passes through |
| LinearAlgebra.Tolerance | src/probesUtilities/MatrixUtilities.java:38 | the tolerance `max(rows, cols) * s[0] * 2e-16` is positive when the largest singular value is |
| LinearAlgebra.Reciprocals | src/probesUtilities/MatrixUtilities.java:39-44 | entry k is the inverse of `s[k]` (`r[k] * s[k] == 1`) when `abs(s[k]) >= tol`, and 0 otherwise |
| LinearAlgebra.ReciprocalsOf | src/probesUtilities/MatrixUtilities.java:39-44 | the loop computes `Reciprocals` |
| LinearAlgebra.Reconstruction | src/probesUtilities/MatrixUtilities.java:47-57 | the reconstructed matrix is cols × rows |
| LinearAlgebra.ReconstructionIsProduct | src/probesUtilities/MatrixUtilities.java:45-57 | the triple-loop entries equal the matrix product V · diag(recip) · Uᵀ |
| LinearAlgebra.Accumulate | src/probesUtilities/MatrixUtilities.java:47-57 | the triple loop with `+=` accumulation builds `Reconstruction` |
| LinearAlgebra.FromSingularValues | src/probesUtilities/MatrixUtilities.java:33-57 | the tall-matrix branch returns `FromDecomposition` of the SVD |
| LinearAlgebra.FromDecomposition | src/probesUtilities/MatrixUtilities.java:34-57 | a non-null result of the tall branch is cols × rows |
| LinearAlgebra.QuadraticFormOfIdentity | src/classifier/NMClassifier.java:218 | with the identity matrix the quadratic form `(x-μ)·M·(x-μ)ᵗ` is the squared Euclidean norm |
| LinearAlgebra.Difference | src/classifier/KNMClassifier.java:100 | `probe - mean`, entrywise: `d[a] + y[a] == x[a]` |
| ProbeDistances.CompareTo | src/classifier/ProbeDistance.java:22-25 | the result is in {-1, 0, 1} and is negative, zero or positive exactly as this distance is <, = or > the other |
| ProbeDistances.CompareToAntisymmetric | src/classifier/ProbeDistance.java:22-25 | `a.compareTo(b) == -b.compareTo(a)` |
| ProbeDistances.CompareToTransitive | src/classifier/ProbeDistance.java:22-25 | the order defined by `compareTo` is transitive |
| ProbeDistances.CompareToAgreesWithDistance | src/classifier/ProbeDistance.java:22-25 | `compareTo <= 0` iff the distance is not larger, so sorting by `compareTo` sorts by distance |
| Sorting.Sort | src/classifier/KNNClassifier.java:70 | `Collections.sort` of the retained distances: ascending and a permutation of the input |
| Sorting.LastIsGreatest | src/classifier/KNNClassifier.java:72 | after sorting, the last retained distance is the largest one |
| Sorting.SortByDistance | src/classifier/KNNClassifier.java:97 | sorting the pool gives an ascending-by-distance permutation of the pool |
| Sorting.SortByDistanceIsStable | src/classifier/KNNClassifier.java:97 | the sort is stable: at every distance, the entries keep their order in the pool |
| Sorting.FirstIsClosest | src/classifier/KNNClassifier.java:97 | the first pooled entry after sorting has the smallest distance |
| Text.ContainsIffOccurs | src/classifier/KNNClassifier.java:134 | `String.contains` holds iff the pattern occurs at some position |
| Text.RemoveAll | src/classifier/KNNClassifier.java:134 | `replace` never makes a string longer |
| Text.RemoveAllSuffix | src/classifier/KNNClassifier.java:134 | removing `_training` from `c + "_training"` gives `c` when `c` has no other occurrence |
| Text.Trim | src/classifier/KNNClassifier.java:134 | the trimmed string is empty or starts and ends with a non-blank character |
| Text.LeadingBlanks | src/classifier/KNNClassifier.java:134 | everything `trim` cuts off at the front is blank |
| Text.TrailingBlanks | src/classifier/KNNClassifier.java:134 | everything `trim` cuts off at the end is blank |
| Scoring.Keys | src/classifier/NMClassifier.java:20-23 | the key list has one entry per map entry, in order |
| Scoring.SplitIsPartition | src/classifier/KNNClassifier.java:25-38 | every entry lands in exactly one of the test/training maps, unchanged, and in the test map iff its key contains `_test`; distinct keys stay distinct |
| Scoring.SplitKeepsShape | src/classifier/NMClassifier.java:29-39 | both halves of the split keep the attribute count |
| Scoring.TotalProbesBound | src/classifier/KNNClassifier.java:47-48 | each set's probe count is at most the total number of probes |
| Scoring.NoProbesAnywhere | src/classifier/KNNClassifier.java:146 | there are no probes in total iff every set is empty |
| Scoring.Closest | src/classifier/NMClassifier.java:222-235 | the arg-min index is -1 or a valid position |
| Scoring.ClosestIsFirstStrictMinimum | src/classifier/NMClassifier.java:222-235 | the chosen class is the first one strictly below the sentinel and not above any defined distance; -1 (name "") iff no distance is below the sentinel |
| Scoring.FindClosestClass | src/classifier/KNMClassifier.java:115-122 | the running-minimum loop returns `ClosestKey` |
| Scoring.MatchingKeysSucceed | src/classifier/KNNClassifier.java:134-138 | `C_test` classified as `C_training` counts as a success |
| Scoring.SubstringClassesAreConfused | src/classifier/KNNClassifier.java:134 | `AB_test` classified as `A_training` also counts as a success |
| Scoring.Record | src/classifier/KNNClassifier.java:134-138 | each test probe adds one to exactly one counter, to successes iff it is a success |
| Scoring.Successes | src/classifier/KNNClassifier.java:134-138 | successes never exceed the number of predictions |
| Scoring.AllSuccesses | src/classifier/KNNClassifier.java:47-140 | successes over all test sets never exceed the number of predictions |
| Scoring.AllSuccessesStep | src/classifier/KNNClassifier.java:47-140 | the success count over all test sets grows set by set |
| Scoring.Accuracy | src/classifier/KNNClassifier.java:146 | the accuracy is in [0, 100]; it is undefined (0/0) iff no test probe was scored |
| Scoring.AccuracyIsShare | src/classifier/KNNClassifier.java:146 | `accuracy * (successes + failures) == 100 * successes`; it is 100 iff there are no failures and 0 iff there are no successes |
| Knn.SquaredDistance | src/classifier/KNNClassifier.java:56-65 | distances are non-negative |
| Knn.DistanceIgnoresUnselected | src/classifier/KNNClassifier.java:58 | an attribute that is not selected (set non-empty and not containing it) does not change the distance |
| Knn.AttributeContribution | src/classifier/KNNClassifier.java:58-63 | a selected attribute contributes exactly `(x[a] - y[a])²`, an unselected one nothing |
| Knn.DistanceToProbe | src/classifier/KNNClassifier.java:56-66 | the attribute loop computes the squared distance over the selected attributes |
| Knn.ClassDistances | src/classifier/KNNClassifier.java:53-66 | one distance per training probe of the class |
| Knn.RetainStep | src/classifier/KNNClassifier.java:67-75 | the bounded list after probe `i` is one accumulator step applied to the list before it |
| Knn.RetainAll | src/classifier/KNNClassifier.java:67-68 | while the class has at most k probes, every distance is kept |
| Knn.RetainKeepsKSmallest | src/classifier/KNNClassifier.java:67-75 | after a class, the list holds `min(k, class size)` distances, drawn from the class as a multiset, each no larger than any discarded one |
| Knn.StepKeepsKSmallest | src/classifier/KNNClassifier.java:67-75 | one more distance keeps the "k smallest" invariant |
| Knn.StepAtCapacity | src/classifier/KNNClassifier.java:69-74 | at capacity, replacing the largest by a strictly smaller distance (or keeping the sorted list) keeps the k smallest |
| Knn.KeepEverything | src/classifier/KNNClassifier.java:67-68 | below capacity, keeping every distance holds the k smallest |
| Knn.ReplaceLargest | src/classifier/KNNClassifier.java:72-73 | overwriting the last sorted entry with a smaller distance keeps the k smallest |
| Knn.KeepSorted | src/classifier/KNNClassifier.java:70-72 | a distance not below the largest retained one is discarded and the k smallest remain |
| Knn.SortedSplitsOffLargest | src/classifier/KNNClassifier.java:70-73 | the last sorted entry is the largest, and the rest plus it is the same multiset |
| Knn.NearestInClass | src/classifier/KNNClassifier.java:52-76 | the per-class loop returns the retained k smallest; with k < 1 it fails as `get(-1)` does unless the class is empty |
| Knn.Admit | src/classifier/KNNClassifier.java:67-75 | one admission is one accumulator step; with k < 1 and an empty list it fails (`get(-1)`) |
| Knn.Tag | src/classifier/KNNClassifier.java:79-82 | every retained distance becomes a `ProbeDistance` with the training key, in order |
| Knn.PoolSize | src/classifier/KNNClassifier.java:84 | the pool has at most one entry per training probe, and at least k entries iff there are at least k training probes |
| Knn.WithClassAppend | src/classifier/KNNClassifier.java:84 | filtering the pool by class distributes over concatenation |
| Knn.WithClassOfTag | src/classifier/KNNClassifier.java:79-84 | the entries a class contributes all carry that class's key |
| Knn.PoolPerClass | src/classifier/KNNClassifier.java:79-84 | the pool entries of a training class are exactly its retained distances tagged with its key |
| Knn.NoOwnerNoEntries | src/classifier/KNNClassifier.java:79-84 | a key that is no training class has no pool entries |
| Knn.PoolOwners | src/classifier/KNNClassifier.java:79-84 | every pool entry comes from some training class's retained distances |
| Knn.PoolHoldsRetained | src/classifier/KNNClassifier.java:79-84 | every retained distance of every class is in the pool with its class key |
| Knn.CollectPool | src/classifier/KNNClassifier.java:50-85 | the loop over training keys builds `Pool` |
| Knn.IncrementKeys | src/classifier/KNNClassifier.java:103-107 | a vote adds the class key if it was missing and otherwise keeps the keys |
| Knn.KeysCons | src/classifier/KNNClassifier.java:103-107 | the keys of a table with a head entry start with the head's key |
| Knn.IncrementKeepsKeysDistinct | src/classifier/KNNClassifier.java:103-107 | the vote map never holds a key twice |
| Knn.IncrementTally | src/classifier/KNNClassifier.java:103-107 | a vote raises its class's count by one, no other count changes, and the total grows by one |
| Knn.CountVotesCounts | src/classifier/KNNClassifier.java:101-108 | each class's vote count is its number of occurrences among the first k entries; a class is a key iff it occurs; the counts sum to k |
| Knn.AbsentKeyHasNoVotes | src/classifier/KNNClassifier.java:103-107 | a class missing from the vote map has no votes |
| Knn.TallyVotes | src/classifier/KNNClassifier.java:101-108 | the vote loop counts the first k sorted entries; it fails (`get(i)` out of range) iff the pool is shorter than k |
| Knn.MostVoted | src/classifier/KNNClassifier.java:111-120 | the winner index is -1 or a valid position |
| Knn.MostVotedIsFirstMaximum | src/classifier/KNNClassifier.java:111-120 | the winner has a count ≥ every count and > every earlier count (strict `<`, so the first maximum wins); -1 iff there are no votes |
| Knn.FindMostVoted | src/classifier/KNNClassifier.java:111-120 | the loop returns the first class with the most votes ("" if none) |
| Knn.Nearest | src/classifier/KNNClassifier.java:97-102 | the voters are exactly k entries |
| Knn.ClassifyProbe | src/classifier/KNNClassifier.java:49-120 | one test probe is classified as `Predict`, or fails with an index error iff the pool holds fewer than k entries |
| Knn.PredictionsUpTo | src/classifier/KNNClassifier.java:48-139 | one prediction per scanned test probe |
| Knn.Predictions | src/classifier/KNNClassifier.java:48-139 | one prediction per probe of the test set |
| Knn.AllPredictions | src/classifier/KNNClassifier.java:47-140 | one prediction list per test set and one prediction per test probe |
| Knn.NextProbe | src/classifier/KNNClassifier.java:48-139 | scanning one more probe appends its prediction and adds one success iff it is a success |
| Knn.NextTestSet | src/classifier/KNNClassifier.java:47-140 | after another test set the counters still match the predictions of all sets scanned |
| Knn.AllPredictionsStep | src/classifier/KNNClassifier.java:47-140 | the predictions for one more test set are appended |
| Knn.ScoreTestSet | src/classifier/KNNClassifier.java:48-139 | the counters grow by the successes and failures of the set's predictions; it fails iff the set has probes but the pool is short |
| Knn.ScoreTestSets | src/classifier/KNNClassifier.java:47-146 | the nested loops give `KnnAccuracy`, or its failure |
| Knn.ShortPoolFails | src/classifier/KNNClassifier.java:102 | with fewer than k training probes in the pool, training fails on `get(i)` |
| Knn.KNNClassifier.constructor | src/classifier/KNNClassifier.java:8-11 | a new classifier starts with empty maps and key sets |
| Knn.KNNClassifier.SplitPassedSetsIntoTestAndTraining | src/classifier/KNNClassifier.java:13-38 | the fields become the test/training split of the input and their key lists |
| Knn.KNNClassifier.Train | src/classifier/KNNClassifier.java:41-148 | the fields hold the split and the result is `KnnAccuracy` of the input, k and attribute set |
| Nn.DistanceTo | src/classifier/NNClassifier.java:9-12 | distances to training probes are non-negative |
| Nn.Train | src/classifier/NNClassifier.java:9-12 | NN training returns exactly KNN's accuracy with k = 1 on the same sets and attributes |
| Nn.NearestNeighbourRule | src/classifier/NNClassifier.java:9-12 | with k = 1 the prediction is the class of a training probe at minimal distance |
| Nn.RetainedIndex | src/classifier/KNNClassifier.java:67-75 | the one retained distance of a class is the distance of one of its probes |
| Nn.LeastOfSet | src/classifier/KNNClassifier.java:67-75 | the one retained distance of a class is no larger than any of its probes' distances |
| Nm.ExtractRows | src/classifier/NMClassifier.java:89-103 | extraction fails only with an index error |
| Nm.Extracted | src/classifier/NMClassifier.java:89-103 | extraction of all sets fails only with an index error |
| Nm.ExtractionIsPerSet | src/classifier/NMClassifier.java:89-103 | every key is kept, in order, and row r of each set is its row `indexes[r]` |
| Nm.ExtractionKeepsSets | src/classifier/NMClassifier.java:89-103 | extraction fails iff some index is out of range or the attribute count is 0 (`[0]`); otherwise keys, probe counts and a row count of `|indexes|` hold |
| Nm.ExtractFrom | src/classifier/NMClassifier.java:93-98 | the row-copy loop computes `ExtractRows` |
| Nm.ExtractSelectedAttributes | src/classifier/NMClassifier.java:89-103 | the loop over keys computes `Extracted` |
| Nm.MeanTable | src/classifier/NMClassifier.java:59-78 | one mean vector per training key, same keys in the same order |
| Nm.CalculateMeanValues | src/classifier/NMClassifier.java:59-78 | the nested loops compute `MeanTable`; a mean is `sum / count` per attribute |
| Nm.Covariance | src/classifier/NMClassifier.java:157-168 | the covariance is attrs × attrs; it is undefined (0/0) iff there is exactly one probe |
| Nm.ScatterSymmetric | src/classifier/NMClassifier.java:157-168 | the accumulated cross products are symmetric in the two attributes |
| Nm.ScatterOfSquares | src/classifier/NMClassifier.java:157-168 | a diagonal accumulation is a sum of squares, so non-negative |
| Nm.CovarianceSymmetric | src/classifier/NMClassifier.java:157-168 | `Cov[i][j] == Cov[j][i]`, and the diagonal is non-negative with at least 2 probes |
| Nm.DivideNonNegative | src/classifier/NMClassifier.java:165 | dividing by `n - 1` keeps a non-negative sum non-negative |
| Nm.CovarianceOf | src/classifier/NMClassifier.java:157-168 | the double loop fills `Covariance` |
| Nm.ScatterOf | src/classifier/NMClassifier.java:160-164 | the probe loop accumulates `Scatter` |
| Nm.ClassInverse | src/classifier/NMClassifier.java:169-175 | a stored inverse is attrs × attrs |
| Nm.InverseOf | src/classifier/NMClassifier.java:169-175 | the inverse, else the pseudoinverse, else a failure on the null pseudoinverse, is `ClassInverse` |
| Nm.Inverses | src/classifier/NMClassifier.java:144-179 | the stored inverses have one entry per training key, each attrs × attrs |
| Nm.CalculateCovarianceMatrix | src/classifier/NMClassifier.java:144-179 | the loop over training keys computes `Inverses` |
| Nm.FailureSticks | src/classifier/NMClassifier.java:144-179 | once one class fails, training stops with that failure |
| Nm.MeanDistance | src/classifier/NMClassifier.java:204-218 | a distance is defined iff both the mean and the inverse are defined |
| Nm.Distances | src/classifier/NMClassifier.java:202-221 | one distance per training key, in key order, each the quadratic form of that key |
| Nm.ProbeDistances | src/classifier/NMClassifier.java:202-221 | the loop over training keys computes `Distances` |
| Nm.NearestMeanRule | src/classifier/NMClassifier.java:222-235 | nothing below 1,000,000 gives ""; otherwise the prediction is the first key strictly below it whose distance is ≤ every defined distance |
| Nm.SetSuccesses | src/classifier/NMClassifier.java:196-242 | successes in a set never exceed its probes |
| Nm.TestSuccesses | src/classifier/NMClassifier.java:194-243 | successes never exceed the total number of test probes |
| Nm.ScoreTestSet | src/classifier/NMClassifier.java:196-242 | each probe of the set is counted once, as a success iff its prediction matches |
| Nm.ScoreTestSets | src/classifier/NMClassifier.java:194-243 | successes and failures add up to every test probe; it fails iff there are test sets but no attributes |
| Nm.TestSetsGrow | src/classifier/NMClassifier.java:194-243 | the success count grows test set by test set |
| Nm.SplitAccuracy | src/classifier/NMClassifier.java:186-247 | the accuracy of a split is in [0, 100] |
| Nm.ScoredAccuracy | src/classifier/NMClassifier.java:194-245 | the accuracy of the scored sets is in [0, 100] |
| Nm.SplitAccuracyFromCounts | src/classifier/NMClassifier.java:186-247 | with counters that match the predictions, the split's accuracy is `Accuracy(successes, failures)` |
| Nm.ScoredAccuracyFromCounts | src/classifier/NMClassifier.java:245 | the ratio is taken over exactly the counted successes and failures |
| Nm.Classify | src/classifier/NMClassifier.java:186-247 | means, inverses and scoring compute `SplitAccuracy` |
| Nm.NmAccuracy | src/classifier/NMClassifier.java:182-248 | the accuracy of a training run is in [0, 100] |
| Nm.NMClassifier.constructor | src/classifier/NMClassifier.java:15-18 | a new classifier starts with empty maps and key sets |
| Nm.NMClassifier.GetNamesOfTrainingAndTestSets | src/classifier/NMClassifier.java:20-23 | the key fields become the keys of the two maps; the maps are unchanged |
| Nm.NMClassifier.SplitPassedSetsIntoTestAndTraining | src/classifier/NMClassifier.java:29-41 | the fields become the test/training split of the input and their key lists |
| Nm.NMClassifier.Train | src/classifier/NMClassifier.java:182-248 | the result is `NmAccuracy`; the fields hold the split of the extracted sets, or are unchanged when extraction fails |
| Knm.MarkedMembers | src/classifier/KNMClassifier.java:73-80 | a key set holds exactly the entries whose key contains the mark, so a key may be in neither set |
| Knm.MarkedKeepsShape | src/classifier/KNMClassifier.java:73-80 | the filtered sets keep the attribute count |
| Knm.Mods | src/classifier/KNMClassifier.java:81-86 | each training key gets one cluster list, in key order, fitting the attribute count |
| Knm.ModsHoldEveryProbe | src/classifier/KNMClassifier.java:81-86 | the clusters of a class together hold all its probes |
| Knm.ModsFailFrom | src/classifier/KNMClassifier.java:81-86 | a clustering failure ends the loop with that failure |
| Knm.ClusterTrainingSets | src/classifier/KNMClassifier.java:81-86 | the loop clusters every training key once, as `Mods` |
| Knm.ClusterInverse | src/classifier/KNMClassifier.java:39-64 | the only failure is the endless retry; a stored matrix is attrs × attrs |
| Knm.RetryIffRankZero | src/classifier/KNMClassifier.java:54-62 | the retry never ends iff the cluster has at least 2 probes and its covariance has neither an inverse nor a pseudoinverse |
| Knm.CalculateCovarianceMatrix | src/classifier/KNMClassifier.java:39-64 | the covariance about the centroid, inverted or pseudo-inverted, is `ClusterInverse` |
| Knm.ClusterDistance | src/classifier/KNMClassifier.java:98-106 | a cluster's distance fails iff its inversion retries forever |
| Knm.SingleProbeClusterIsSkipped | src/classifier/KNMClassifier.java:99 | a one-probe cluster (0/0 covariance) is skipped by the determinant test |
| Knm.ClassDistance | src/classifier/KNMClassifier.java:96-108 | a class distance is at most `Double.MAX_VALUE` |
| Knm.ClassDistanceIsMinimum | src/classifier/KNMClassifier.java:96-108 | the class distance fails iff a cluster fails; otherwise it is ≤ every defined cluster distance and is either MAX_VALUE or one of them |
| Knm.DistanceToNearestClassCentroid | src/classifier/KNMClassifier.java:96-107 | the running minimum over clusters computes `ClassDistance` |
| Knm.ClassDistanceFailsFrom | src/classifier/KNMClassifier.java:94-112 | after a failing cluster the class distance keeps that failure |
| Knm.ClassDistances | src/classifier/KNMClassifier.java:93-113 | one distance per training key |
| Knm.ClassDistancesAt | src/classifier/KNMClassifier.java:93-113 | entry c is training key c with its class distance; fails iff some class fails |
| Knm.DistancesBetweenProbeAndClass | src/classifier/KNMClassifier.java:91-113 | the loop over training keys computes `ClassDistances` |
| Knm.ClassDistancesFailFrom | src/classifier/KNMClassifier.java:93-113 | a failing class ends the loop with that failure |
| Knm.PredictClass | src/classifier/KNMClassifier.java:88-122 | the only failure of a prediction is the endless retry |
| Knm.PredictionFailsIffCannotInvert | src/classifier/KNMClassifier.java:94-112 | a prediction fails iff some cluster of some class cannot be inverted |
| Knm.NearestModeRule | src/classifier/KNMClassifier.java:96-122 | nothing below MAX_VALUE gives ""; otherwise the prediction is the class owning a cluster whose distance is ≤ every defined cluster distance |
| Knm.ClassEntry | src/classifier/KNMClassifier.java:96-108 | a class's entry is its key with the minimum of its clusters' distances, or MAX_VALUE |
| Knm.ClosestModeWins | src/classifier/KNMClassifier.java:115-122 | the winning class owns a cluster at the smallest distance |
| Knm.NothingWithin | src/classifier/KNMClassifier.java:115-122 | when no class is below MAX_VALUE, no cluster is |
| Knm.SetPredictions | src/classifier/KNMClassifier.java:90-128 | one prediction per scanned probe; failures are the endless retry |
| Knm.SetPredictionsAreProbePredictions | src/classifier/KNMClassifier.java:90-128 | the set succeeds iff every probe's prediction does, and prediction i is the prediction of column i |
| Knm.SetPredictionsFailFrom | src/classifier/KNMClassifier.java:90-128 | a failing probe ends the set with that failure |
| Knm.SetCounts | src/classifier/KNMClassifier.java:90-128 | successes and failures of a set add up to its probe count |
| Knm.SetFailsIffCannotInvert | src/classifier/KNMClassifier.java:90-128 | a non-empty set fails iff some cluster cannot be inverted |
| Knm.ScoreTestSet | src/classifier/KNMClassifier.java:90-128 | the probe loop computes `SetCounts` |
| Knm.NextPrediction | src/classifier/KNMClassifier.java:115-127 | one more probe appends its prediction and one success iff it matches |
| Knm.FailedPrediction | src/classifier/KNMClassifier.java:94-112 | a probe whose class distances fail makes the set fail |
| Knm.TestCounts | src/classifier/KNMClassifier.java:88-129 | the failures are an index error or the endless retry |
| Knm.TestCountsCoverEveryProbe | src/classifier/KNMClassifier.java:88-129 | every test probe is counted exactly once |
| Knm.TestsFailIff | src/classifier/KNMClassifier.java:88-129 | scoring fails iff there are test sets but no attributes (`[0]`), or a test probe exists and some cluster cannot be inverted |
| Knm.ScoreTestSets | src/classifier/KNMClassifier.java:88-129 | the loop over test keys computes `TestCounts` |
| Knm.ScoreNextTestSet | src/classifier/KNMClassifier.java:89-128 | one test set adds its counts |
| Knm.TestCountsFailFrom | src/classifier/KNMClassifier.java:88-129 | a failing test set ends scoring with that failure |
| Knm.SplitAccuracy | src/classifier/KNMClassifier.java:81-132 | the accuracy is in [0, 100] |
| Knm.Classify | src/classifier/KNMClassifier.java:81-132 | clustering and scoring compute `SplitAccuracy` |
| Knm.KnmAccuracy | src/classifier/KNMClassifier.java:66-133 | the accuracy of a training run is in [0, 100] |
| Knm.KNMClassifier.constructor | src/classifier/KNMClassifier.java:19-21 | a new classifier starts with empty key sets |
| Knm.KNMClassifier.Train | src/classifier/KNMClassifier.java:66-133 | the result is `KnmAccuracy`; the key fields hold the `_training` and `_test` keys of the extracted sets |
| Clusters.Nearest | src/probesUtilities/ClusterFinder.java:51-59 | the nearest index is valid, and -1 only without centroids |
| Clusters.NearestIsFirstClosest | src/probesUtilities/ClusterFinder.java:53-59 | the chosen centroid has minimal distance and is strictly closer than every earlier one (strict `>`, first wins) |
| Clusters.NearestCentroid | src/probesUtilities/ClusterFinder.java:51-59 | the loop computes `Nearest` |
| Clusters.NearestOf | src/probesUtilities/ClusterFinder.java:48-60 | every probe is assigned to a valid centroid |
| Clusters.Members | src/probesUtilities/ClusterFinder.java:43-62 | a centroid's list holds at most the scanned probes, each with all attributes |
| Clusters.MembersAreNearest | src/probesUtilities/ClusterFinder.java:43-62 | every member of a centroid's list has that centroid as its nearest |
| Clusters.MemberIsNearest | src/probesUtilities/ClusterFinder.java:43-62 | a single member has its centroid as its nearest |
| Clusters.MembersStep | src/probesUtilities/ClusterFinder.java:48-61 | scanning one more probe appends it to its nearest centroid's list only |
| Clusters.GroupsUpTo | src/probesUtilities/ClusterFinder.java:44-47 | every centroid gets a list, possibly empty |
| Clusters.Groups | src/probesUtilities/ClusterFinder.java:43-62 | every centroid gets a list, possibly empty |
| Clusters.GroupsPartitionProbes | src/probesUtilities/ClusterFinder.java:43-62 | the lists together hold exactly the scanned probes, so each probe is assigned once |
| Clusters.ZeroSizes | src/probesUtilities/ClusterFinder.java:44-47 | freshly created lists hold nothing |
| Clusters.OneGroupGrows | src/probesUtilities/ClusterFinder.java:60 | adding a probe to one list grows the total by one |
| Clusters.SameSizes | src/probesUtilities/ClusterFinder.java:48-61 | lists of the same sizes have the same total |
| Clusters.GroupsAreUniform | src/probesUtilities/ClusterFinder.java:43-62 | every assigned probe has all attributes |
| Clusters.AssignSamplesToMods | src/probesUtilities/ClusterFinder.java:43-62 | the loop computes `Groups` |
| Clusters.ListToMatrix | src/probesUtilities/ClusterFinder.java:135-143 | the list is transposed: attrs × list size and `r[a][p] == list[p][a]`; it fails iff the list is empty or a probe is too short |
| Clusters.ConvertListOfProbesToMatrix | src/probesUtilities/ClusterFinder.java:135-143 | the nested loop computes `ListToMatrix` |
| Clusters.Corrected | src/probesUtilities/ClusterFinder.java:121-133 | it fails with EmptyClusterException iff some centroid has no probes; otherwise one new centroid per old one |
| Clusters.CorrectedAreMeans | src/probesUtilities/ClusterFinder.java:121-133 | each new centroid is the mean of its old centroid's probes, in the same order |
| Clusters.CorrectModCenters | src/probesUtilities/ClusterFinder.java:121-133 | the loop computes `Corrected` |
| Clusters.CorrectedFailsFrom | src/probesUtilities/ClusterFinder.java:125-127 | an empty cluster makes the correction fail |
| Clusters.MaxDislocationIsMaximum | src/probesUtilities/ClusterFinder.java:145-153 | the maximum displacement is ≥ 0, ≥ every paired distance, and is 0 or one of them |
| Clusters.MaximumDislocation | src/probesUtilities/ClusterFinder.java:145-153 | the loop computes `MaxDislocation` |
| Clusters.Lloyd | src/probesUtilities/ClusterFinder.java:72-83 | the iteration keeps one centroid per cluster, fitting the attributes; failures are an empty cluster or exhausted fuel |
| Clusters.LloydRound | src/probesUtilities/ClusterFinder.java:75-82 | one round: stop on an empty cluster, stop when displacement ≤ 1e-6, otherwise continue from the moved centroids |
| Clusters.MoveCentroids | src/probesUtilities/ClusterFinder.java:74-83 | the do-while loop computes `Lloyd` |
| Clusters.Relocate | src/probesUtilities/ClusterFinder.java:76-81 | one loop body is one round of `Lloyd` |
| Clusters.PickIndexes | src/probesUtilities/ClusterFinder.java:108-117 | the picks are pairwise distinct indexes below the column count |
| Clusters.FreshIndex | src/probesUtilities/ClusterFinder.java:112-113 | adding an index not yet chosen keeps the picks distinct and in range |
| Clusters.RandomPicks | src/probesUtilities/ClusterFinder.java:105-119 | `numberOfClusters` distinct indexes in [0, columns); `nextInt(0)` throws; more clusters than columns never ends |
| Clusters.RandomModCenters | src/probesUtilities/ClusterFinder.java:105-119 | the loop returns the probes at the picked indexes |
| Clusters.CentersAt | src/probesUtilities/ClusterFinder.java:114-116 | one centroid per picked index, with all attributes |
| Clusters.CentersGrow | src/probesUtilities/ClusterFinder.java:108-117 | one more pick appends its probe |
| Clusters.FindCentroids | src/probesUtilities/ClusterFinder.java:69-88 | one cluster always succeeds without draws; k > 1 needs k ≤ the probe count; the result has k centroids |
| Clusters.SingleClusterIsMean | src/probesUtilities/ClusterFinder.java:84-86 | with one cluster the centroid is the per-attribute mean of all probes |
| Clusters.FindCentroidsForNClusters | src/probesUtilities/ClusterFinder.java:69-88 | the method computes `FindCentroids` |
| Clusters.ErrorSum | src/probesUtilities/ClusterFinder.java:159-166 | the error is undefined (0/0) iff some cluster is empty |
| Clusters.ClusterError | src/probesUtilities/ClusterFinder.java:155-169 | the error is undefined iff a centroid gets no probes |
| Clusters.SumOfDistances | src/probesUtilities/ClusterFinder.java:161-164 | the stream sum computes `DistanceSum` |
| Clusters.CalculateError | src/probesUtilities/ClusterFinder.java:155-169 | the method computes `ClusterError` |
| Clusters.SumOfMeanDistances | src/probesUtilities/ClusterFinder.java:159-168 | the loop computes `ErrorSum` |
| Clusters.ConfigurationsGrow | src/probesUtilities/ClusterFinder.java:32-33 | storing another configuration keeps all stored ones well formed |
| Clusters.OneMoreCluster | src/probesUtilities/ClusterFinder.java:30 | the cluster count grows |
| Clusters.Search | src/probesUtilities/ClusterFinder.java:24-41 | a configuration it settles on has centroids fitting the probes, and sub-clusters, if any, that hold every probe |
| Clusters.OptimalCentroids | src/probesUtilities/ClusterFinder.java:24-41 | the elbow search returns a settled configuration |
| Clusters.SearchFollowsElbow | src/probesUtilities/ClusterFinder.java:24-67 | after rounds 1..m, the search settles on the k of the elbow rule, or fails with a round's error other than `EmptyClusterException` |
| Clusters.OptimalCentroidsFollowElbow | src/probesUtilities/ClusterFinder.java:24-67 | the result keeps round k's centroids and round k+1's leftover draws, where rounds 2..k each passed `errorDecreasedSignificantly` (the error moved by more than 10% of the one before) and round k+1 threw `EmptyClusterException` or failed that test; it fails only without probes or with a round's own error, never with `EmptyClusterException` |
| Clusters.SettledClustersAreAssigned | src/probesUtilities/ClusterFinder.java:14-41 | the clusters returned are the assignment to the returned centroids |
| Clusters.FindOptimalClusters | src/probesUtilities/ClusterFinder.java:24-41 | the do-while loop with the 10% rule, returning configuration m-1, computes `OptimalCentroids` |
| Clusters.CentroidsOf | src/probesUtilities/ClusterFinder.java:40 | the centroids exist iff the search succeeded |
| Clusters.ToClusters | src/probesUtilities/ClusterFinder.java:18-20 | it fails iff some cluster is empty; otherwise one cluster per centroid |
| Clusters.ToClustersSize | src/probesUtilities/ClusterFinder.java:18-20 | the clusters hold as many probes as the lists |
| Clusters.ToClusterAt | src/probesUtilities/ClusterFinder.java:18-20 | cluster c is centroid c with its list as a matrix |
| Clusters.ToClustersFit | src/probesUtilities/ClusterFinder.java:18-20 | each cluster keeps its centroid and its transposed list, and fits the attributes |
| Clusters.ToClustersFailFrom | src/probesUtilities/ClusterFinder.java:19 | an empty list fails on `get(0)` |
| Clusters.GroupsAsMatrices | src/probesUtilities/ClusterFinder.java:18-20 | the loop computes `ToClusters` |
| Clusters.Assign | src/probesUtilities/ClusterFinder.java:14-22 | one cluster per centroid, fitting the attributes, holding every probe once |
| Clusters.Clustering | src/probesUtilities/ClusterFinder.java:14-22 | at least one cluster, together holding every probe once |
| Clusters.AssignProbesToClusters | src/probesUtilities/ClusterFinder.java:14-22 | the method computes `Clustering` |
| Splitter.Round | src/probesUtilities/ProbesPerTrainingAndTestSetSplitter.java:22 | `Math.round`: the result is within one half of the argument (ties up) |
| Splitter.TestCountInRange | src/probesUtilities/ProbesPerTrainingAndTestSetSplitter.java:22 | for a share in [0, 1], the test count is between 0 and the probe count |
| Splitter.Collect | src/probesUtilities/ProbesPerTrainingAndTestSetSplitter.java:25-27 | the only failure is running out of draws |
| Splitter.CollectChoosesDrawn | src/probesUtilities/ProbesPerTrainingAndTestSetSplitter.java:25-27 | the set grows to exactly the count, from the drawn indexes |
| Splitter.TestIndexesAreDistinctProbes | src/probesUtilities/ProbesPerTrainingAndTestSetSplitter.java:22-27 | the chosen set has exactly `count` distinct probe indexes; it never ends iff `count` exceeds the probe count |
| Splitter.ChooseTestIndexes | src/probesUtilities/ProbesPerTrainingAndTestSetSplitter.java:24-27 | the while loop computes `TestIndexes` |
| Splitter.Positions | src/probesUtilities/ProbesPerTrainingAndTestSetSplitter.java:34-46 | positions are probe indexes |
| Splitter.PositionsCount | src/probesUtilities/ProbesPerTrainingAndTestSetSplitter.java:29-30 | test and training columns together are all probes; the test side has one column per chosen index |
| Splitter.PositionsMembers | src/probesUtilities/ProbesPerTrainingAndTestSetSplitter.java:35 | a probe goes to the test side iff its index was chosen |
| Splitter.PositionsAscending | src/probesUtilities/ProbesPerTrainingAndTestSetSplitter.java:34-46 | both sides keep the probes' relative order |
| Splitter.PositionsGrow | src/probesUtilities/ProbesPerTrainingAndTestSetSplitter.java:34-46 | scanning further probes never shrinks either side |
| Splitter.SelectColumns | src/probesUtilities/ProbesPerTrainingAndTestSetSplitter.java:34-46 | the selected columns, in order |
| Splitter.CopyProbe | src/probesUtilities/ProbesPerTrainingAndTestSetSplitter.java:36-38 | one column of the target receives the probe; nothing else changes |
| Splitter.FillSides | src/probesUtilities/ProbesPerTrainingAndTestSetSplitter.java:34-46 | the loop fills the test and training arrays with the chosen and unchosen columns |
| Splitter.SplitColumns | src/probesUtilities/ProbesPerTrainingAndTestSetSplitter.java:29-46 | the test set is the chosen columns and the training set the rest, in order |
| Splitter.EntriesAreColumns | src/probesUtilities/ProbesPerTrainingAndTestSetSplitter.java:29-46 | the filled array holds the selected columns |
| Splitter.HoldoutClassSplitsProbes | src/probesUtilities/ProbesPerTrainingAndTestSetSplitter.java:20-46 | a class splits into the `round(n·(1-p))` chosen columns and the other columns, both in probe order; it fails on `[0]` iff the class has no attributes, otherwise only when the draws run out |
| Splitter.HoldoutKeys | src/probesUtilities/ProbesPerTrainingAndTestSetSplitter.java:19-49 | each class K yields exactly the entries `K_test` and `K_training` with its two halves |
| Splitter.HoldoutFails | src/probesUtilities/ProbesPerTrainingAndTestSetSplitter.java:19-49 | the holdout split fails iff some class's split fails |
| Splitter.SplitClass | src/probesUtilities/ProbesPerTrainingAndTestSetSplitter.java:20-48 | the per-class body computes `HoldoutClass` |
| Splitter.HoldoutStep | src/probesUtilities/ProbesPerTrainingAndTestSetSplitter.java:19-49 | one more class adds its two entries |
| Splitter.SimpleValidationSplit | src/probesUtilities/ProbesPerTrainingAndTestSetSplitter.java:15-53 | the method computes `Holdout`: a one-element list holding the split map |
| Splitter.ClassIndex | src/probesUtilities/ProbesPerTrainingAndTestSetSplitter.java:164-170 | the class index is 0 iff the probe index is below the first class count, and 1 otherwise |
| Splitter.Tally | src/probesUtilities/ProbesPerTrainingAndTestSetSplitter.java:196-205 | one count per class |
| Splitter.TallyCountsClasses | src/probesUtilities/ProbesPerTrainingAndTestSetSplitter.java:196-205 | count k is the number of indexes of class k; it fails iff some index's class has no slot |
| Splitter.TallyTotal | src/probesUtilities/ProbesPerTrainingAndTestSetSplitter.java:196-205 | the per-class counts sum to the length of the index list |
| Splitter.TotalIncrement | src/probesUtilities/ProbesPerTrainingAndTestSetSplitter.java:201 | one increment grows the total by one |
| Splitter.TallyFailsFrom | src/probesUtilities/ProbesPerTrainingAndTestSetSplitter.java:199-202 | a failing index ends counting with that failure |
| Splitter.CountOfProbesInSetForClasses | src/probesUtilities/ProbesPerTrainingAndTestSetSplitter.java:196-205 | the loop computes `Tally` |
| Splitter.PermutationClassSizes | src/probesUtilities/ProbesPerTrainingAndTestSetSplitter.java:60-61 | the shuffled indexes hold `count[0]` probes of class 0 and the rest of class 1 |
| Splitter.DistinctOfFirstClass | src/probesUtilities/ProbesPerTrainingAndTestSetSplitter.java:164-170 | among distinct indexes, those of class 0 are exactly the ones below `count[0]` |
| Splitter.FoldAllocation | src/probesUtilities/ProbesPerTrainingAndTestSetSplitter.java:73-79 | one (training, test) size per class name |
| Splitter.FoldAllocationRows | src/probesUtilities/ProbesPerTrainingAndTestSetSplitter.java:75-76 | class k's arrays have the training row count and the fold's test count of class k |
| Splitter.FoldSets | src/probesUtilities/ProbesPerTrainingAndTestSetSplitter.java:63-99 | in a fold, `K_test` holds class K's probes among the fold's positions and `K_training` its other probes, padded to the allocated size |
| Splitter.CrossValidationFolds | src/probesUtilities/ProbesPerTrainingAndTestSetSplitter.java:55-103 | a positive `setsCount` gives exactly that many folds, fold i being the fold of size c = n / setsCount at position i, and it fails iff one fold fails; 0 divides by zero, a negative count gives no folds, no attributes fails on `[0]` |
| Splitter.CrossValidationAsWrittenPadsTraining | src/probesUtilities/ProbesPerTrainingAndTestSetSplitter.java:75 | as written, `K_training` has n - test(K) columns, so every column after the class's own training probes is zero |
| Splitter.CrossValidationTrainingIsRestOfClass | src/probesUtilities/ProbesPerTrainingAndTestSetSplitter.java:73-93 | corrected, `K_training` is exactly class K's probes outside the fold's test positions |
| Splitter.NotDrawnMembers | src/probesUtilities/ProbesPerTrainingAndTestSetSplitter.java:120-124 | the test indexes are exactly the indexes never drawn, ascending |
| Splitter.TestProbeIndexes | src/probesUtilities/ProbesPerTrainingAndTestSetSplitter.java:120-124 | the loop computes `NotDrawn` |
| Splitter.ExactAllocation | src/probesUtilities/ProbesPerTrainingAndTestSetSplitter.java:126-134 | one (training, test) size per class name |
| Splitter.BootstrapTrialSets | src/probesUtilities/ProbesPerTrainingAndTestSetSplitter.java:110-157 | `K_training` holds class K's drawn probes with repetition, in draw order; `K_test` holds its probes never drawn |
| Splitter.BootstrapTrials | src/probesUtilities/ProbesPerTrainingAndTestSetSplitter.java:105-162 | exactly 20 trials, each the split of its own draws |
| Separator.CopyEnd | src/probesUtilities/ProbePerClassSeparator.java:17 | the copy loop ends between its start and start + count |
| Separator.ClassBlock | src/probesUtilities/ProbePerClassSeparator.java:15-22 | a class matrix is featureCount × count |
| Separator.ProbePerClassSeparator.constructor | src/probesUtilities/ProbePerClassSeparator.java:8 | the map field starts out null |
| Separator.ProbePerClassSeparator.SeparateProbesPerClass | src/probesUtilities/ProbePerClassSeparator.java:10-26 | the field holds the map built and the result is `Separated` (as written) |
| Separator.CopyClass | src/probesUtilities/ProbePerClassSeparator.java:15-22 | one class's loop copies columns `start..end` into a fresh matrix, failing when a column is missing |
| Separator.CopyColumn | src/probesUtilities/ProbePerClassSeparator.java:18-20 | the copy succeeds iff every attribute row holds the probe; then that one column receives it and nothing else changes |
| Separator.SeparationEntries | src/probesUtilities/ProbePerClassSeparator.java:11-25 | one entry per class name, each that class's block between the running indexes |
| Separator.SeparationFails | src/probesUtilities/ProbePerClassSeparator.java:11-25 | separation fails iff a count is missing or negative, featureCount is negative, or a copied column is missing |
| Separator.FailureStays | src/probesUtilities/ProbePerClassSeparator.java:13-24 | a failing class ends the separation with that failure |
| Separator.ReachIsRunningMaximum | src/probesUtilities/ProbePerClassSeparator.java:12-17 | as written, the shared index after k classes is the largest count so far |
| Separator.ReachIsPrefixSum | src/probesUtilities/ProbePerClassSeparator.java:12-17 | corrected, the shared index after k classes is the sum of their counts |
| Separator.ReachGrows | src/probesUtilities/ProbePerClassSeparator.java:17 | the shared index never decreases |
| Separator.FirstClassCopiesItsProbes | src/probesUtilities/ProbePerClassSeparator.java:12-22 | the first class gets columns 0..count[0]-1 of the mixed matrix |
| Separator.LaterClassStaysZero | src/probesUtilities/ProbePerClassSeparator.java:17 | a later class whose count is ≤ an earlier count keeps an all-zero matrix |
| Separator.SeparatedExample | src/probesUtilities/ProbePerClassSeparator.java:17 | counts [2, 2]: as written class b is zeros; corrected it gets columns 2 and 3 |
| Separator.CorrectedClassIsItsBlock | src/probesUtilities/ProbePerClassSeparator.java:13-22 | corrected, class i gets the `count[i]` columns after the earlier classes' columns |
| FeatureSelection.AttributeMean | src/probesUtilities/FeatureSelector.java:140-141 | the mean times the row length is the row sum; undefined (0/0) iff the row is empty |
| FeatureSelection.CalculateMeanValues | src/probesUtilities/FeatureSelector.java:137-144 | one mean per attribute row, each `AttributeMean` of that row |
| FeatureSelection.CalculateMeanValuesForEachClass | src/probesUtilities/FeatureSelector.java:128-135 | the loop computes the per-class mean table |
| FeatureSelection.JamaFailure | src/probesUtilities/FeatureSelector.java:149 | building a Jama matrix fails iff the array is ragged |
| FeatureSelection.CovarianceFailure | src/probesUtilities/FeatureSelector.java:146-161 | a class's covariance throws iff its matrix is ragged or has no probes |
| FeatureSelection.FirstCovarianceFailure | src/probesUtilities/FeatureSelector.java:146-154 | the per-class loop fails iff some class's covariance fails, with that class's exception |
| FeatureSelection.VectorAsColumns | src/probesUtilities/FeatureSelector.java:179-185 | `requiredSize` columns, each equal to the vector; negative sizes and size 0 throw |
| FeatureSelection.ConvertVectorToMatrix | src/probesUtilities/FeatureSelector.java:179-185 | the loop computes `VectorAsColumns` |
| FeatureSelection.ExtractedEntries | src/probesUtilities/FeatureSelector.java:187-195 | a one-row matrix whose entry i is `vector[required[i]]`; it fails iff an index is out of range |
| FeatureSelection.ExtractRequiredFeaturesOfVector | src/probesUtilities/FeatureSelector.java:187-195 | the loop computes `ExtractedEntries` |
| FeatureSelection.ExtractedRows | src/probesUtilities/FeatureSelector.java:197-205 | row i is `matrix[required[i]]` with the probe count unchanged; it fails iff an index is out of range or none is given |
| FeatureSelection.ExtractRequiredFeatures | src/probesUtilities/FeatureSelector.java:197-205 | the loop computes `ExtractedRows` |
| FeatureSelection.ExtractedMeansAreMeansOfExtractedRows | src/probesUtilities/FeatureSelector.java:99-102 | extracting from the means equals the means of the extracted rows |
| FeatureSelection.CombinedProbes | src/probesUtilities/FeatureSelector.java:163-177 | the attribute rows are kept, with the first class's columns before the second's |
| FeatureSelection.CombinedColumns | src/probesUtilities/FeatureSelector.java:163-177 | column p is the first class's column p, column `n1 + q` the second class's column q |
| FeatureSelection.CombineProbesToOneMatrix | src/probesUtilities/FeatureSelector.java:163-177 | transposing, stacking and transposing back computes `CombinedProbes` |
| FeatureSelection.StackedTranspose | src/probesUtilities/FeatureSelector.java:168-176 | transposing the stacked rows gives the combined matrix |
| FeatureSelection.StackedRows | src/probesUtilities/FeatureSelector.java:168-174 | the stacked array holds the first class's probes, then the second's |
| FeatureSelection.Leader | src/probesUtilities/FeatureSelector.java:37-42 | the leader is -1 or a scanned index |
| FeatureSelection.LeaderIsFirstStrictMaximum | src/probesUtilities/FeatureSelector.java:37-42 | the leader has the greatest score above the threshold and beats every earlier score strictly; -1 iff none beats the threshold |
| FeatureSelection.FirstPickIsEarliestBest | src/probesUtilities/FeatureSelector.java:33-43 | the first pick is the earliest feature with the greatest score above 0, or -1 if no score is positive |
| FeatureSelection.FindFirstPick | src/probesUtilities/FeatureSelector.java:37-42 | the loop computes `FirstPick` |
| FeatureSelection.NextPickIsBestNewFeature | src/probesUtilities/FeatureSelector.java:47-65 | a later pick is the earliest unchosen feature with the greatest score above `Double.MIN_VALUE`, or -1 if none beats it |
| FeatureSelection.FindNextPick | src/probesUtilities/FeatureSelector.java:47-65 | the loop computes `NextPick` |
| FeatureSelection.PlaceholderBreaksNextRound | src/probesUtilities/FeatureSelector.java:54-60 | a -1 left in the list makes the next round fail on index -1 |
| FeatureSelection.PicksFailureStays | src/probesUtilities/FeatureSelector.java:45-66 | a failing round ends the selection with that failure |
| FeatureSelection.PicksAreRounds | src/probesUtilities/FeatureSelector.java:43-66 | the list starts with the first pick and entry i is the pick of round i |
| FeatureSelection.SfsListPicksDistinctFeatures | src/probesUtilities/FeatureSelector.java:29-66 | the list has max(1, n) entries, each -1 or a feature; real picks are distinct; a -1 is followed by another round only when every feature was already picked |
| FeatureSelection.SelectFurtherFeatures | src/probesUtilities/FeatureSelector.java:45-68 | the rounds loop collects the picks into a set |
| FeatureSelection.BestCombinationIsFirstMaximum | src/probesUtilities/FeatureSelector.java:71-89 | the result is the first combination with the greatest score above `Double.MIN_VALUE`; if none beats it, `IntStream.of(null)` throws |
| FeatureSelection.FindBestAttributes | src/probesUtilities/FeatureSelector.java:71-89 | the loop over combinations computes `BestCombination` |
| FeatureSelection.FeatureSelector.constructor | src/probesUtilities/FeatureSelector.java:16-18 | a new selector starts with no class names and no means |
| FeatureSelection.FeatureSelector.GetBestAttributesUsingFisher | src/probesUtilities/FeatureSelector.java:20-26 | the class names and means become those of the input; the result is `FisherSelection` |
| FeatureSelection.FeatureSelector.SelectBestFeatureIndexesUsingSFS | src/probesUtilities/FeatureSelector.java:28-69 | the fields are updated unless the list size is negative (`new ArrayList` throws first); the result is `SfsSelection` |

## Left out

- Floating point is not modelled. Numbers are exact reals, with these consequences:
  - No rounding, overflow or infinities.
  - NaN from 0/0 appears as an undefined value (`None`) or as `Err(NoTestProbes)` for the accuracy.
  - `Double.MAX_VALUE`, `Double.MIN_VALUE` (2^-1074) and the 1,000,000 sentinel are exact constants.
  - Integer counters are unbounded; no 32-bit wrap-around is modelled.
- Knn.SquaredDistance: compares squared distances and never takes `Math.sqrt`. The square root is strictly monotone, so every comparison, and with it every retained list and vote, is the same.
- Clusters.Euclidean: the Euclidean distance of `EuklideanDistance.java` takes the square root as a parameter. The k-means thresholds compare distance values, not only their order.
- Jama internals are oracle functions in a `LinearAlgebra.Jama` record:
  - `inverse`, `det` and the singular value decomposition (U, V, singular values, rank);
  - a soundness predicate fixes only their shapes;
  - transposition, products and quadratic forms are defined exactly.
- The Fisher scores of `FeatureSelector.computeFisherLD` (both overloads) are parameters (`rowScore`, `setScore`).
- The determinants used there are left out, and so are the covariance matrices of `calculateCovarianceMatrixForEachClass`. Only their exceptions (ragged or empty class matrices) are kept.
- FeatureSelection.BestCombination: the apache `Combinations` iterator is a parameter (the list of combinations). Only its argument check is modelled.
- Randomness is a parameter:
  - the holdout test indexes, as the sequence of `nextInt` draws;
  - the cross-validation shuffle, as a permutation;
  - the bootstrap draws;
  - the k-means initial picks.
  A draw sequence that runs out gives `Err(OutOfFuel)`.
- Clusters.Lloyd: the centroid-update loop carries fuel. When the fuel runs out it gives `Err(OutOfFuel)`; convergence of the real loop is not modelled.
- Knm.ClusterInverse: the `while (true)` retry in KNM training recomputes the same values, so it never ends once inversion fails. The model gives `Err(RetriesForever)` instead of running forever.
- Splitter.CrossValidation and Splitter.Bootstrap are functions on values. Their array-filling loops are not written as methods; the holdout splitter's loops are.
- Java `HashMap` and `HashSet` iteration order is the order of the association list. No particular hash order is modelled.
- Class names are taken to be distinct, which is what a map key set guarantees.
- Fields that are null before the first call are modelled as empty tables or `None`.
- Printing and debugging helpers are not part of this model:
  - `printMatrix` and `printArrayOneDim` in ClusterFinder and KNMClassifier;
  - `printInt` and `printProbe` in the splitter;
  - the console message on an empty cluster.
- `Classifier.java`, `SFSFeatureSelector.java`, `IClassifier.java` and `IKClassifier.java` are not part of this model. They are an unused base class, a stub with its body commented out, and interfaces.
- `ProbeDistance` getters are the datatype's field selectors, so they have no separate members.

## Findings

| source | as written | input that shows it | evidently intended | confidence | as-written member | corrected member |
|---|---|---|---|---|---|---|
| src/probesUtilities/ProbesPerTrainingAndTestSetSplitter.java:75 | the training array of class K is sized `overallProbeCount - testCount[K]`, counting the other class's probes too, so the tail of `K_training` is zero probes | probes `[[1,2,3,4]]`, setsCount 2, names `["a","b"]`, counts `[2,2]`, shuffle `[0,2,1,3]`: fold 0's `a_training` is `[[2,0,0]]` | size it by class K's own training probes, so `K_training` holds exactly class K's probes outside the fold | not executed | Splitter.CrossValidationAsWrittenPadsTraining | Splitter.CrossValidationTrainingIsRestOfClass |
| src/probesUtilities/ProbePerClassSeparator.java:17 | the shared `indexOfProbe` is compared with the class's own count, not with a running total, so a later class copies nothing when its count is ≤ an earlier one | classes `["a","b"]`, featureCount 1, counts `[2,2]`, mixed `[[1,2,3,4]]`: class b is `[[0,0]]` | loop while `indexOfProbe < count[0] + … + count[i]`, so class b gets `[[3,4]]` | not executed | Separator.LaterClassStaysZero | Separator.CorrectedClassIsItsBlock |

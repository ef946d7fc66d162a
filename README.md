# SampleBIDashboard core, modelled in Dafny

This project models the data engine of a small business-intelligence dashboard. The engine has three parts:

- **the table filter** (`DataFilter`, js/data-filter.js). It types each column as number or text from a sample
  of its first rows. It evaluates typed conditions on single cells and keeps the rows that match all (AND) or
  any (OR) of them. It limits the result to the top or bottom N rows by a sort column. It also holds the
  condition list and its id counter;
- **the analysis object** (`MLAnalyzer`, js/ml-analyzer.js). It reads the numeric values of a column and
  computes descriptive statistics, Pearson correlation with its verbal banding, least-squares regression,
  k-means clustering of two columns, and IQR or z-score outliers;
- **the chart base class** (`Chart`, js/chart-base.js). It validates the table and drops blank rows, reads one
  column, names a column by its header, and merges and updates the drawing configuration.

Numbers are exact `real`s. A table is a sequence of rows, and a row is a sequence of cells. A cell is
`Num(value, text)`, `Str(text)` or `Empty`; `Empty` stands for `null` and for reading past the end of a row.
`ParseNum` stands for both `parseFloat` and the `!isNaN(v) && v !== null && v !== ''` test; it accepts signed
decimal numerals. The values the page's controls supply become parameters: the AND/OR choice, the limit mode,
the limit count and the sort column. The draws of `Math.random` become a parameter `randoms` of numbers in
`[0, 1)`.

An exception the code throws is modelled as a value. The column lookup `this.columns[i].type` throws for a
column with no entry, but only once there is a data row to map. Regression and clustering catch it and return
`{ error }`. Statistics, correlation and outlier detection have no `try`, so the exception escapes; their
methods return `Reply.Threw` in that case.

Files, one module each:

- `cells.dfy`: cells and the JavaScript conversions on them.
- `columns.dfy`: column typing.
- `seqs.dfy`: filter, reverse and slice on sequences.
- `sorting.dfy`: the stable sort, as a function and in place on an array.
- `data_filter.dfy`: the filter engine and its `Filter` class.
- `numeric.dfy`: sums, means, the column extractor and the error type of the analyses.
- `statistics.dfy`, `correlation.dfy`, `regression.dfy`, `kmeans.dfy`, `outliers.dfy`: the five analyses.
- `analyzer.dfy`: the `MLAnalyzer` class.
- `chart.dfy`: the `Chart` class.

Where the imperative code loops or updates state, the model does the same, and each method is proved equal to
a specification function whose properties are proved as lemmas. This covers the correlation sums, the k-means
loop over an array of centroids, the outlier scan, the point pairing, the in-place sort and reverse of
`applyLimit`, and the classes' field updates. Where the code is map/filter/reduce, the model is a function.

Two edge cases of the analyses, as the code decides them:

- k-means counts a centroid as moved only when a coordinate changes by more than 0.001
  (`Math.abs(d) > 0.001`). A move of exactly 0.001 counts as converged.
- With a standard deviation of 0, `(v - mean) / 0` is infinite, and so above the threshold, unless `v` is the
  mean, where it is `NaN` and the test fails. With exact numbers a variance of 0 means every value is the
  mean, so the z-score rule flags nothing.

## Model

| member | source | states |
|---|---|---|
| Cells.CellText | js/data-filter.js:231 | `String(cell \|\| '')`: a falsy cell reads as the empty text |
| Cells.LowerIdempotent | js/data-filter.js:231-232 | lower-casing twice is lower-casing once: every folded letter is a small letter that folds to itself |
| Cells.IncludesAt | js/data-filter.js:235-236 | `includes` holds exactly when the value stands in the text at some offset |
| Cells.StrLeqTotal | js/data-filter.js:297-299 | any two texts compare one way or the other |
| Cells.StrLeqTransitive | js/data-filter.js:297-299 | the text order is transitive |
| Cells.NatToString | js/chart-base.js:35 | the numeral `${n}` is a non-empty digit string whose value is `n` |
| Cells.NatToStringParses | js/chart-base.js:35 | the numeral parses back to `n` |
| Columns.Sample | js/data-filter.js:29 | the typing sample is rows 1..5: none, all data rows, or five of them |
| Columns.NumericCount | js/data-filter.js:30 | the numeric count is at most the sample size |
| Columns.DetectColumnTypeRule | js/data-filter.js:26-33 | with fewer than 2 rows a column is text; otherwise it is a number column iff 10 × numeric count ≥ 7 × sample size |
| Columns.DetectColumnTypeSamplesSixRows | js/data-filter.js:29 | only the header and the first five data rows decide the type |
| Columns.DetectColumnTypeThresholds | js/data-filter.js:32 | one sampled cell decides alone; of five, four numeric cells make a number column and three do not |
| Columns.ColumnsOfTypes | js/data-filter.js:16-24 | after `updateColumns`, the type a condition on column `i` is compared by is the type detected for that column, and text past the header |
| Columns.TypeAt | js/data-filter.js:213 | `columns[i]?.type \|\| 'text'`: an index with no entry is text |
| Seqs.Keep | js/data-filter.js:258-264 | `filter` keeps exactly the elements that pass and no others |
| Seqs.KeepIsSubsequence | js/data-filter.js:258-264 | `filter` keeps the order: its result is a subsequence |
| Seqs.KeepMultiplicity | js/data-filter.js:258-264 | `filter` keeps each passing element as often as it occurs and drops the rest |
| Seqs.KeepIdempotent | js/data-filter.js:258-264 | filtering twice by the same test is filtering once |
| Seqs.Reverse | js/data-filter.js:303-305 | `reverse` puts element `i` at position `n - 1 - i` |
| Seqs.ReverseMultiset | js/data-filter.js:303-305 | reversing only reorders |
| Seqs.ReverseInPlace | js/data-filter.js:303-305 | the in-place reverse leaves the reversed old contents |
| Seqs.SliceEnd | js/data-filter.js:307 | the end of `slice(0, count)`: at most the length, at most a non-negative `count`, and for a negative `count` at least the length minus `-count` |
| Sorting.SortBy | js/data-filter.js:288-301 | the stable sort by a comparator keeps the length |
| Sorting.SortByMultiset | js/data-filter.js:288-301 | the sort is a permutation of its input |
| Sorting.SortBySorted | js/data-filter.js:288-301 | for a total preorder, the sort's result is sorted |
| Sorting.InsertionSort | js/data-filter.js:288-301 | the in-place sort of the row array leaves the stable sort of its old contents |
| Sorting.InsertInPlace | js/data-filter.js:288-301 | one insertion step places `a[i]` into the sorted prefix and leaves the rest of the array alone |
| DataFilter.OperatorsFor | js/data-filter.js:35-57 | every column type offers at least one operator |
| DataFilter.OperatorsPartition | js/data-filter.js:35-57 | an operator is offered for number columns iff it is not offered for text columns |
| DataFilter.NumberConditionFailsClosed | js/data-filter.js:215-219 | on a number column, an unparsable cell or value makes every operator false |
| DataFilter.NumberComplements | js/data-filter.js:221-227 | on parsed numbers `ne`/`eq`, `lte`/`gt`, `gte`/`lt` are complements; unparsed, `eq` and `ne` are both false |
| DataFilter.ForeignOperatorIsFalse | js/data-filter.js:221-244 | an operator the column's type does not offer is false (the `default` branches) |
| DataFilter.TextComplements | js/data-filter.js:234-242 | `not_contains`, `not_equals` and `not_empty` are the exact complements of `contains`, `equals` and `empty` |
| DataFilter.TextIgnoresCase | js/data-filter.js:231-232 | texts and values that agree up to the modelled case folding (ASCII, Latin-1, Greek, Cyrillic and full-width letters) get the same verdict from every text operator |
| DataFilter.TextFoldsAccents | js/data-filter.js:231-238 | a cell `Ä` `equals` the value `ä`, but not `a` |
| DataFilter.TextFoldsFullWidth | js/data-filter.js:231-236 | a full-width cell `ＡＢＣ` `contains` the value `ａ` |
| DataFilter.AbsentCellIsEmptyText | js/data-filter.js:212-241 | on a text column, a cell past the end of the row is empty: `empty` holds and `not_empty` fails |
| DataFilter.UntypedColumnIsText | js/data-filter.js:213 | a column index with no entry is compared as text, so a number operator is false |
| DataFilter.ClearingKeepsVerdict | js/data-filter.js:203-208 | `empty`/`not_empty` ignore the value, so any value, and the cleared one `updateValueInput` leaves, gives the same verdict |
| DataFilter.FilterTableSpec | js/data-filter.js:248-268 | no conditions give the original table; otherwise the original header, then the matching data rows in order, each as often as it occurs (AND: all conditions, OR: some) |
| DataFilter.FilterTableIdempotent | js/data-filter.js:255-266 | filtering the filtered table again with the same conditions gives the same table |
| DataFilter.DescendingIsTotalPreorder | js/data-filter.js:288-301 | the sort order is total and transitive, so the stable sort is well defined |
| DataFilter.LimitRowsShape | js/data-filter.js:275-308 | 'all' or no data rows give the table back; otherwise the header and, for a non-negative count, `min(count, rows)` data rows, always a sub-multiset of the table's data rows |
| DataFilter.LimitRowsNegativeCount | js/data-filter.js:307 | a negative `count` keeps exactly `max(0, rows + count)` data rows, the front of the limit order |
| DataFilter.LimitOrderMultiset | js/data-filter.js:288-305 | the sorted (and, for 'bottom', reversed) rows are exactly the data rows |
| DataFilter.LimitOrderSorted | js/data-filter.js:288-305 | 'top' orders descending, 'bottom' ascending |
| DataFilter.LimitRowsSorted | js/data-filter.js:303-308 | the kept rows are sorted descending for 'top' and ascending for 'bottom' |
| DataFilter.LimitRowsExtremes | js/data-filter.js:303-308 | 'top' keeps rows no dropped row precedes; 'bottom' keeps rows every dropped row precedes |
| DataFilter.Filter.constructor | js/data-filter.js:2-8 | no conditions, counter 0, no columns, empty tables |
| DataFilter.Filter.SetData | js/data-filter.js:10-24 | both tables become the data; the columns are rebuilt unless the data is empty; conditions are kept |
| DataFilter.Filter.AddCondition | js/data-filter.js:59-71 | appends one `contains` condition on column 0 with an empty value under the old counter, increments the counter, and keeps ids distinct |
| DataFilter.Filter.RemoveCondition | js/data-filter.js:73-79 | removes exactly the conditions with the id and keeps the rest in order |
| DataFilter.Filter.SetOperator | js/data-filter.js:133-136 | sets the operator of the condition with the id, then applies the clearing rule; others unchanged |
| DataFilter.Filter.SetColumn | js/data-filter.js:110-113 | sets the column and the first operator the new type offers; others unchanged |
| DataFilter.Filter.SetValue | js/data-filter.js:156-158 | sets the value of the condition with the id; others unchanged |
| DataFilter.Filter.ApplyFilter | js/data-filter.js:248-268 | the filtered table becomes the filter of the original table, never of the previous result |
| DataFilter.Filter.ApplyLimit | js/data-filter.js:270-309 | returns the limited table and leaves the filter state alone |
| DataFilter.Filter.Reset | js/data-filter.js:311-314 | no conditions, counter 0, filtered table back to the original |
| DataFilter.SubsequenceKeepsValid | js/data-filter.js:74 | removing conditions keeps ids distinct |
| Numeric.SumBounds | js/ml-analyzer.js:53 | the sum of values in `[lo, hi]` lies between `n·lo` and `n·hi` |
| Numeric.MeanBounds | js/ml-analyzer.js:53-54 | the mean of values in `[lo, hi]` lies in `[lo, hi]` |
| Numeric.SquaredDeviations | js/ml-analyzer.js:56 | the sum of squared deviations is never negative |
| Numeric.NumbersOf | js/ml-analyzer.js:38-41 | the extracted values are at most the cells |
| Numeric.NumbersOfMember | js/ml-analyzer.js:38-41 | a value is extracted iff some cell parses to it |
| Numeric.NumbersOfSound | js/ml-analyzer.js:38-41 | every extracted value comes from a cell that parses to it |
| Numeric.NumbersOfComplete | js/ml-analyzer.js:38-41 | every cell that parses yields its value |
| Numeric.NumbersOfAllNumeric | js/ml-analyzer.js:38-41 | a column whose cells all parse loses none |
| Numeric.GetColumnData | js/ml-analyzer.js:36-42 | the lookup throws iff there is a data row and the column has no entry; at most `|data| - 1` values |
| Correlation.CorrelationUsesPairsOnly | js/ml-analyzer.js:88-90 | values past the end of the shorter column never change the correlation |
| Regression.RegressionUsesPairsOnly | js/ml-analyzer.js:142-144 | values past the end of the shorter column never change the fit |
| Numeric.GetColumnDataValues | js/ml-analyzer.js:36-42 | a value is returned iff some data row's cell in the column parses to it |
| Statistics.QuartileIndices | js/ml-analyzer.js:63-64 | `floor(n/4)` and `floor(3n/4)`, in range and ordered |
| Statistics.CalculateStatistics | js/ml-analyzer.js:44-82 | the error variant iff there are no values; otherwise `count = n` |
| Statistics.StatisticsExtremes | js/ml-analyzer.js:75-76 | `min` and `max` bound every value and are values |
| Statistics.StatisticsOrder | js/ml-analyzer.js:59-80 | `min ≤ q1 ≤ median ≤ q3 ≤ max`, `iqr ≥ 0`, `range ≥ 0` |
| Statistics.StatisticsMoments | js/ml-analyzer.js:53-56 | the mean lies in `[min, max]` and the population variance is never negative |
| Statistics.StatisticsExample | js/ml-analyzer.js:44-82 | `[3, 1, 2]`: mean 2, median 2, variance 2/3, quartiles 1 and 3 |
| Correlation.ZeroIsWeakNegative | js/ml-analyzer.js:121-135 | `r = 0` is weak and reads as a weak negative correlation |
| Correlation.BandingsAgree | js/ml-analyzer.js:121-135 | the two bandings agree except at exactly 0.7 and 0.3, where `>=` and `>` part |
| Correlation.BandsFromSumsAreBandsOfCoefficient | js/ml-analyzer.js:111-117 | the bands read off the sums are the bands of `numerator / sqrt(product)` |
| Correlation.CorrelationOf | js/ml-analyzer.js:84-119 | the error variant iff fewer than 2 pairs |
| Correlation.CalculateCorrelation | js/ml-analyzer.js:96-117 | the one-pass loop gives the report of the three sums |
| Correlation.CrossDeviationsSymmetric | js/ml-analyzer.js:103-106 | the numerator is symmetric in the two columns |
| Correlation.CorrelationSymmetric | js/ml-analyzer.js:84-118 | swapping the columns swaps the variances and keeps numerator, coefficient and bands |
| Correlation.ZeroProductIsZeroCorrelation | js/ml-analyzer.js:111-112 | a zero variance product gives coefficient 0, weak, weak negative |
| Correlation.CauchySchwarz | js/ml-analyzer.js:99-111 | `numerator² ≤ xVariance · yVariance` |
| Correlation.RSquaredBounds | js/ml-analyzer.js:111-112 | a squared coefficient from such sums lies in `[0, 1]` |
| Correlation.RSquaredInUnitInterval | js/ml-analyzer.js:111-112 | the squared coefficient lies in `[0, 1]`, so `r` lies in `[-1, 1]` |
| Correlation.CorrelationExample | js/ml-analyzer.js:84-119 | `[1, 2, 3]` against `[2, 4, 6]` is a perfect strong positive correlation |
| Regression.ResidualSquares | js/ml-analyzer.js:163-166 | the residual sum of squares is never negative |
| Regression.LinearRegression | js/ml-analyzer.js:137-185 | the error variant iff fewer than 2 pairs |
| Regression.LinearRegressionPairs | js/ml-analyzer.js:142-144 | the fit is that of the pairs cut to the shorter length |
| Regression.SumPredictions | js/ml-analyzer.js:171 | the predictions sum to `a·Σx + n·b` |
| Regression.RegressionPredictions | js/ml-analyzer.js:171 | with a finite fit, `|predictions| = n` and `predictions[i] = slope·x[i] + intercept` |
| Regression.PredictionsSumToObserved | js/ml-analyzer.js:157-171 | the predictions sum to `Σy` |
| Regression.FittedValuesBalance | js/ml-analyzer.js:157-171 | the same for any pair list the fit is computed on |
| Regression.ClosedFormRecoversLine | js/ml-analyzer.js:157-158 | the closed form applied to the sums of exact line data gives back its slope and intercept |
| Regression.DenominatorIsSpread | js/ml-analyzer.js:151-157 | the slope's denominator `n·Σx² − (Σx)²` is `n` times the squared deviations of `x` from its mean |
| Regression.FitPairsFitted | js/ml-analyzer.js:151-157 | the slope is finite iff the paired `x` are not all equal |
| Regression.SlopeIsFinite | js/ml-analyzer.js:137-157 | `performLinearRegression` gives a finite line iff the paired `x` values are not all equal |
| Regression.ExactLineIsRecovered | js/ml-analyzer.js:151-158 | data on `y = a·x + b` whose `x` are not all equal is fitted, with slope `a`, intercept `b` and the observed values as predictions |
| Regression.RSquaredAtMostOne | js/ml-analyzer.js:161-168 | `R² ≤ 1` |
| Regression.RegressionExample | js/ml-analyzer.js:137-181 | `[1, 2, 3]` against `[2, 4, 6]`: slope 2, intercept 0, `R² = 1` |
| KMeans.Nearest | js/ml-analyzer.js:233-245 | the assigned centroid index is in range |
| KMeans.NearestIsFirstMinimum | js/ml-analyzer.js:236-245 | the assigned centroid is at minimal distance and every earlier centroid is strictly farther |
| KMeans.NearestIsUnique | js/ml-analyzer.js:236-245 | conversely, the first index at minimal distance is the assigned one |
| KMeans.Assigned | js/ml-analyzer.js:232-248 | the points pushed onto a cluster are at most all the points |
| KMeans.AssignedAppend | js/ml-analyzer.js:247 | a further point is appended to its nearest centroid's cluster only |
| KMeans.AssignedCount | js/ml-analyzer.js:232-248 | a cluster holds each point nearest to it as often as the input does, and no other point |
| KMeans.AssignedMembers | js/ml-analyzer.js:232-248 | a point is in cluster `j` iff it is a point whose nearest centroid is `j` |
| KMeans.Groups | js/ml-analyzer.js:229 | one bucket per centroid |
| KMeans.Update | js/ml-analyzer.js:251-267 | one cluster and one new centroid per bucket |
| KMeans.Round | js/ml-analyzer.js:229-267 | one round yields one cluster and one centroid per centroid |
| KMeans.RoundAt | js/ml-analyzer.js:229-267 | cluster `j` of a round is the cluster of bucket `j`, and its centroid the update of centroid `j` |
| KMeans.RoundUpdate | js/ml-analyzer.js:253-266 | an empty cluster keeps its previous centroid and reports none; a non-empty one moves to its mean |
| KMeans.RoundAssignment | js/ml-analyzer.js:232-248 | a point is in cluster `j` of a round iff `j` is its nearest centroid |
| KMeans.GroupsPartition | js/ml-analyzer.js:232-248 | the buckets together hold every point exactly once |
| KMeans.ClusterSizesCountPoints | js/ml-analyzer.js:247 | the cluster sizes add up to the number of points held |
| KMeans.RoundPartitionsPoints | js/ml-analyzer.js:229-267 | a round's clusters partition the points, and their sizes sum to `|points|` |
| KMeans.RunFrom | js/ml-analyzer.js:227-270 | the loop runs at most `maxIterations` rounds and at least one when it may run |
| KMeans.RunStops | js/ml-analyzer.js:269 | a converged round ends the loop with its clusters |
| KMeans.RunContinues | js/ml-analyzer.js:227-270 | a round that moved a centroid continues the loop from the new centroids |
| KMeans.RunPartitionsPoints | js/ml-analyzer.js:227-272 | after at least one round, the returned clusters partition the points, one per centroid |
| KMeans.NoIterationsNoClusters | js/ml-analyzer.js:225-227 | with no iterations the result is no clusters |
| KMeans.AssignedToOnlyCentroid | js/ml-analyzer.js:232-248 | with one centroid, every point goes to it |
| KMeans.SingleClusterRound | js/ml-analyzer.js:229-267 | with one centroid, a round makes one cluster of all points centred at their mean |
| KMeans.SingleClusterSettles | js/ml-analyzer.js:227-270 | with k = 1 the loop ends after at most two rounds, at the mean of all points, whatever the initial centroid |
| KMeans.InitialIndex | js/ml-analyzer.js:221 | `floor(random · n)` is a valid index |
| KMeans.InitialCentroids | js/ml-analyzer.js:219-223 | `k` initial centroids, each one of the points |
| KMeans.NearestCentroid | js/ml-analyzer.js:233-245 | the scan over the centroid array gives the nearest index |
| KMeans.SimpleKMeans | js/ml-analyzer.js:217-273 | the array-based loop gives the clusters of the specification |
| KMeans.Iterate | js/ml-analyzer.js:227-270 | the iteration loop gives the clusters of `RunFrom` from the initial centroids |
| KMeans.RunRound | js/ml-analyzer.js:229-269 | one iteration updates the centroid array to the round's centroids and returns its clusters and flag |
| KMeans.ChooseCentroids | js/ml-analyzer.js:219-223 | a fresh centroid array holding the initial centroids |
| KMeans.AssignPoints | js/ml-analyzer.js:232-248 | a fresh bucket array holding the assignment |
| KMeans.UpdateCentroids | js/ml-analyzer.js:251-267 | the in-place update gives the round's centroids, clusters and convergence flag |
| KMeans.KMeansClustering | js/ml-analyzer.js:187-215 | an error iff fewer points than `k`, `k < 0`, or `k = 0` with points; fewer points than `k` reports both counts; otherwise `k` clusters |
| KMeans.ClusteringPartitionsPoints | js/ml-analyzer.js:204-211 | the clusters partition the points and the centroids are listed in cluster order |
| Outliers.MethodOf | js/ml-analyzer.js:283-299 | `'iqr'` selects the IQR rule, `'zscore'` the z-score rule, and any other name neither |
| Outliers.OutliersOf | js/ml-analyzer.js:281-300 | at most one outlier per value |
| Outliers.DetectOutliers | js/ml-analyzer.js:275-309 | the statistics' error iff there are no values |
| Outliers.PercentageBounds | js/ml-analyzer.js:307 | the percentage lies in `[0, 100]` |
| Outliers.FindOutliers | js/ml-analyzer.js:281-300 | the scan pushes exactly the outliers of the specification |
| Outliers.OutliersSound | js/ml-analyzer.js:283-299 | each reported outlier has a 1-based index, is the value there, is flagged, and has its kind |
| Outliers.OutliersComplete | js/ml-analyzer.js:283-299 | every flagged value is reported at its position |
| Outliers.OutliersIncreasing | js/ml-analyzer.js:287-289 | indices strictly increase |
| Outliers.UnrecognisedFlagsNothing | js/ml-analyzer.js:283-300 | an unknown method reports no outlier |
| Outliers.ReportCounts | js/ml-analyzer.js:302-308 | `totalCount = n`, `outlierCount = |outliers| ≤ n`, percentage in `[0, 100]` |
| Outliers.IqrOutliersBeyondQuartiles | js/ml-analyzer.js:284-289 | a low outlier lies below `q1` and a high one above `q3` |
| Outliers.ZScoreRule | js/ml-analyzer.js:292-299 | the variance form of the rule is the code's `\|v - mean\| / sd > 2` |
| Analyzer.NumericColumns | js/ml-analyzer.js:32-34 | the columns typed as numbers, and only those |
| Analyzer.PairPoints | js/ml-analyzer.js:192-197 | the pairing loop gives `PairUp` |
| Analyzer.NoNumbersIsEmpty | js/ml-analyzer.js:36-49 | a column yields no values iff no cell below the header parses |
| Analyzer.MLAnalyzer.constructor | js/ml-analyzer.js:2-6 | no data, no columns |
| Analyzer.MLAnalyzer.SetData | js/ml-analyzer.js:8-21 | the data is stored; the columns are rebuilt unless it is empty |
| Analyzer.MLAnalyzer.CalculateStatistics | js/ml-analyzer.js:44-49 | throws iff the lookup throws; otherwise the statistics of the values, an error iff no cell parses |
| Analyzer.MLAnalyzer.CalculateCorrelation | js/ml-analyzer.js:84-94 | throws iff either lookup throws; otherwise the correlation of the two columns' values |
| Analyzer.MLAnalyzer.PerformLinearRegression | js/ml-analyzer.js:137-185 | a caught lookup exception is returned; an error iff a lookup throws or fewer than 2 pairs |
| Analyzer.MLAnalyzer.PerformKMeansClusteringSimple | js/ml-analyzer.js:187-215 | a caught lookup exception is returned; otherwise the clustering of the paired values |
| Analyzer.MLAnalyzer.DetectOutliers | js/ml-analyzer.js:275-309 | throws iff the lookup throws; otherwise the report by the rule the method name selects, or the statistics' error |
| ChartBase.MergeFieldByField | js/chart-base.js:5-11 | each given option replaces its default and the others keep it; no options give the defaults; merging again changes nothing |
| ChartBase.ValidateData | js/chart-base.js:16-27 | refused iff the table is missing or has fewer than 2 rows, always as invalid data; otherwise a subsequence of the data rows holding exactly those with a cell that is neither null nor '' |
| ChartBase.ValidateDataCounts | js/chart-base.js:25-26 | each kept row occurs as often as it does below the header |
| ChartBase.ColumnOfMatchesAnalyzer | js/chart-base.js:29-32 | the chart's column of the rows below the header is the column of cells the analyser parses |
| ChartBase.Chart.constructor | js/chart-base.js:2-14 | the configuration is the defaults overridden by the options |
| ChartBase.Chart.GetColumnData | js/chart-base.js:29-32 | column `i` of the rows given, or of the validated rows, with the validation error |
| ChartBase.Chart.GetColumnHeader | js/chart-base.js:34-36 | the header cell when truthy, else `Column i+1`; never blank; an error without a header row |
| ChartBase.Chart.SetTitle | js/chart-base.js:38-41 | only the title changes, and the chart itself is returned |
| ChartBase.Chart.SetLabels | js/chart-base.js:43-47 | only the axis labels change, and the chart itself is returned |
| ChartBase.Chart.SetColors | js/chart-base.js:49-52 | only the colours change, and the chart itself is returned |

## Left out

- The DOM: element builders, event wiring and the `document.getElementById` reads. The values read become parameters, and the change handlers become `SetOperator`, `SetColumn` and `SetValue`.
- js/dashboard.js, js/chart-types.js and js/chart-factory.js (the page, Plotly traces and the chart registry) are not part of this model, and neither are `render`, `updateData`, `clear` and `getPlotConfig` of the chart base class.
- `generateInsights` and the `analysisResults` field: heuristic wording on floating-point ratios, not used by the analyses.
- IEEE-754 floating point: rounding, `NaN` propagation and infinities. Numbers are exact reals.
- Statistics.CalculateStatistics: has no `standardDeviation` field, because it is a square root; the variance is reported instead.
- Correlation.CorrelationOf: reports the squared coefficient and the sign-aware bands instead of `r`, because `r` needs a square root. `BandsFromSumsAreBandsOfCoefficient` ties the bands to `r`.
- Regression.LinearRegression: has no `equation` string (`toFixed(4)` formatting). A zero denominator gives `NotFinite` instead of `NaN`/`Infinity` values. `R²` is `None` when every `y` is equal, where the code divides by 0.
- Outliers.DetectOutliers: the percentage is exact, not rounded by `toFixed(2)`. A z-score outlier carries no score, because the score divides by a square root.
- KMeans.Nearest: compares squared distances; the order, and so the assignment, is that of the Euclidean distances.
- KMeans.SimpleKMeans: `Math.random` is the parameter `randoms`, one draw in `[0, 1)` per centroid. `k` is an integer.
- Numeric.GetColumnData: parses the cells of every column. The code parses only number columns; on a text column it keeps the raw strings that pass `!isNaN`, and the sums would then concatenate text.
- Cells.Lower: folds the ASCII, Latin-1, basic Greek and Cyrillic, and full-width capitals. The rest of the Unicode case mapping of `toLowerCase` is left out: other scripts, Latin Extended letters, context rules such as the final sigma, and mappings that change the length (`İ`).
- DataFilter.TextIgnoresCase: is case-insensitivity for the capitals `Cells.Lower` folds only; two texts that JavaScript folds alike through the rest of the Unicode mapping may get different verdicts in the model.
- Cells.ParseNum: accepts signed decimal numerals only. The prefix parsing of `parseFloat`, whitespace, exponents, hexadecimal and `Infinity` are left out.
- Cells.StrLeq: orders texts by character code; `localeCompare` collation is left out.
- DataFilter.DescendingBy: stands for the comparator `bNum - aNum`, which is `NaN` for an unparsable key. The model places unparsable keys after all numbers, where the JavaScript order is implementation-defined.
- DataFilter.Header: an empty table's `undefined` header is the empty row.
- ChartBase.Merge: a key present in the options with the value `undefined` is not distinguished from a missing key; options other than the four configuration fields are dropped.
- ChartBase.ValidateData: a table that is not an array is `None`, the same as a missing one.
- The CSV import/export of the dashboard and its file I/O.

# Online shopping purchase prediction: data loading and evaluation

This project models the core of `shopping.py`, a small program that predicts
whether an online shopping session ends in a purchase. Two parts are modelled:

- `load_data` turns each CSV record into a numeric evidence vector of
  seventeen entries and a 0/1 label. The vector holds fourteen integer or
  decimal columns (seven read with `int()`, seven with `float()`), the month as
  its calendar index and the VisitorType and Weekend columns collapsed to 0/1.
  Revenue collapses to the 0/1 label.
- `evaluate` counts true/false positives and negatives over the
  (actual, predicted) pairs, then reports sensitivity and specificity with a
  zero guard on each denominator.

The modules are:

- `Wrappers` holds `Option` and a failure-compatible `Result`.
- `Numbers` models what `int()` and `float()` accept from one cell, with
  decimals as exact rationals.
- `Decoder` decodes one record, as a map from column name to cell text. It
  is driven by a seventeen-entry schema table in the source's column order.
  The table is also the reference definition that the lemmas compare the
  decoder with.
- `Loader` models the loading loop as a method. It is proved equal to a
  recursive accumulation over the records' outcomes, and the lemmas are
  stated about that accumulation.
- `Evaluator` models the counting loop as a method. It is proved equal to a
  recursive count over the zipped pairs, and the lemmas tie that count to
  multiset multiplicities and to the two rates.

Errors are values:

- A missing column is `MissingColumn`, which stands for the `KeyError` of
  `row[...]`.
- A month outside the table is `UnknownMonth`, which stands for the
  `KeyError` of `months[...]`.
- A cell that `int()` or `float()` refuses is `MalformedNumber`, which stands
  for the `ValueError`.

A record reports the first failing cell in source order. Its evidence is
decoded before its Revenue column is read, so an evidence error wins over a
missing Revenue. Loading stops at the first failing record, as the uncaught
exception does.

In three places the code is more lenient than a reader might expect:

- `evaluate` walks `zip(labels, predictions)`, so lists of unequal length are
  truncated to the shorter one rather than rejected.
- A missing column is only noticed when a record is decoded, so a file with a
  header and no records loads as two empty lists whatever its header says.
- The month table spells June as `"June"`, so a cell `"Jun"` is an unknown
  month.

## Model

| member | source | states |
|---|---|---|
| Numbers.ParseInt | shopping.py:77 | an accepted text is non-empty, holds only digits after an optional leading sign, and its value is non-positive after a minus sign and non-negative otherwise |
| Numbers.ParseFloat | shopping.py:78 | an accepted text's value is non-positive after a leading minus sign and non-negative otherwise |
| Numbers.ParseIntRoundTrip | shopping.py:77 | reading back the decimal spelling of any integer with `int()` gives that integer |
| Numbers.ParseIntRejectsPoint | shopping.py:77 | a cell holding a decimal point is never accepted by `int()`, so an integer column holding "1.0" fails |
| Numbers.ParseFloatExtendsParseInt | shopping.py:78 | every text `int()` accepts is accepted by `float()` with the same value |
| Numbers.ParseMantissaDecimal | shopping.py:78 | digits, a point and digits read back as whole + frac / 10^len(frac) |
| Numbers.ParseUnsignedScientific | shopping.py:78 | digits, a point, digits, `e` and an integer exponent read back as the exact decimal value times 10^exponent |
| Numbers.ParseFloatScientific | shopping.py:78 | the same text, read through `float()` with its optional sign, gives the exact decimal value times 10^exponent |
| Decoder.MonthIndex | shopping.py:63-67 | a month name found in the table maps to an index below 12 that names it in calendar order; any other name is an unknown-month error |
| Decoder.MonthTableIsCalendar | shopping.py:63-67 | the table maps the i-th calendar name to i for all twelve names, accepts no other string, and rejects "Jun" |
| Decoder.VisitorTypeCode | shopping.py:93-97 | the code is 0 or 1, and 1 exactly for "Returning_Visitor" |
| Decoder.WeekendCode | shopping.py:99-103 | the code is 0 or 1, and 1 exactly for "TRUE" |
| Decoder.RevenueLabel | shopping.py:107-108 | the label is 0 or 1, and 1 exactly for "TRUE" |
| Decoder.DecodeFieldValid | shopping.py:77-103 | one cell decodes exactly when it is valid for its column kind, to the value its kind gives; otherwise it fails with a missing column, an unknown month or a malformed number as the case calls for |
| Decoder.DecodeFieldsOk | shopping.py:76-103 | decoding a run of schema fields succeeds exactly when every field decodes, giving one value per field in order |
| Decoder.DecodeFieldsFirstError | shopping.py:76-103 | decoding a run of schema fields that fails reports the error of its first failing field |
| Decoder.FieldsLayout | shopping.py:76-103 | a successful decode holds, at position k, the value of the cell named by field k |
| Decoder.EvidenceLayout | shopping.py:40-57 | a decoded evidence vector has seventeen entries, entry k being the value of the k-th column of the documented order |
| Decoder.CategoricalEntries | shopping.py:87-103 | entry 10 is the month's table index, entry 15 the VisitorType code and entry 16 the Weekend code |
| Decoder.EvidenceOkIffValid | shopping.py:76-105 | a record's evidence decodes exactly when all seventeen of its cells are valid |
| Decoder.EvidenceFirstError | shopping.py:77-103 | when cell k is the first invalid one, decoding fails with that cell's error: missing column, unknown month or malformed number |
| Decoder.MissingColumnFails | shopping.py:77-103 | a record lacking any evidence column fails |
| Decoder.UnknownMonthFails | shopping.py:87 | a record whose month is outside the table fails |
| Decoder.DecodeEvidence | shopping.py:76-103 | a decoded evidence vector has one value per schema field, seventeen in all |
| Decoder.DecodeLabel | shopping.py:107-108 | the label decodes exactly when Revenue is present, is 0 or 1, and is 1 exactly for "TRUE"; without Revenue it fails with a missing column |
| Loader.DecodeRowOutcome | shopping.py:76-109 | one record decodes exactly when its seventeen cells are valid and Revenue is present, to seventeen values and the Revenue label; an evidence error is reported as it is, and valid evidence without Revenue fails with a missing Revenue column |
| Loader.EvidenceErrorWins | shopping.py:77 | a record holding only Revenue fails with the missing Administrative column, not with its label |
| Loader.LoadData | shopping.py:69-111 | the loading loop returns exactly the recursive accumulation of the records' outcomes; on success both lists have one entry per record |
| Loader.CollectErrorPersists | shopping.py:74-109 | once a prefix of the records fails, loading fails with that same error |
| Loader.CollectAligned | shopping.py:105-109 | a successful accumulation has equally long evidence and label lists, entry i of both taken from outcome i |
| Loader.CollectOkIff | shopping.py:74-109 | the accumulation succeeds exactly when every outcome does |
| Loader.CollectFirstError | shopping.py:74-109 | a failed accumulation reports the error of the first failing outcome |
| Loader.DecodeRowsAligned | shopping.py:74-111 | a loaded dataset has one evidence vector and one label per record, entry i of both decoded from record i |
| Loader.DecodeRowsOkIff | shopping.py:74-111 | loading succeeds exactly when every record decodes |
| Loader.DecodeRowsFirstError | shopping.py:74-111 | loading that fails reports the error of the first failing record |
| Loader.LoadedShape | shopping.py:39-60 | every loaded evidence vector has seventeen entries and every loaded label is 0 or 1 |
| Evaluator.Zip | shopping.py:141 | the pairs are as many as the shorter list, and pair i is (labels[i], predictions[i]) |
| Evaluator.TallyCountsOnce | shopping.py:142-149 | one step of the if/elif chain never decreases a counter, and raises the total by one for a pair in {0,1} x {0,1} and by nothing otherwise |
| Evaluator.Rate | shopping.py:151-155 | a rate lies in [0, 1], is 0 when the denominator is 0, and otherwise times the denominator equals the hits |
| Evaluator.Evaluate | shopping.py:124-157 | the returned sensitivity and specificity are the rates of the confusion count of the zipped pairs, both in [0, 1] |
| Evaluator.CountIsMultiplicity | shopping.py:141-149 | each counter equals the number of zipped pairs of its kind; pairs outside {0,1} x {0,1} are counted nowhere |
| Evaluator.CountTotal | shopping.py:141-149 | the counters never add up to more than the pairs, and they add up to exactly the pairs when all pairs are binary |
| Evaluator.CountsCoverShorterList | shopping.py:141-149 | with binary labels and predictions the counters add up to the length of the shorter list |
| Evaluator.RateExtremes | shopping.py:151-155 | a rate is 1 exactly when there are hits and no misses, and 0 exactly when there are no hits |
| Evaluator.PerfectPredictions | shopping.py:131-135 | predictions equal to binary labels holding both classes give sensitivity 1 and specificity 1 |
| Evaluator.OneOfEach | shopping.py:141-155 | labels [1,1,0,0] against predictions [1,0,0,1] give one of each count and both rates 1/2 |
| Evaluator.NoPositives | shopping.py:151-155 | with no actual positives, sensitivity is 0 by the zero guard while all-correct negatives give specificity 1 |

## Left out

- `main` and the command line (shopping.py:10-31) are not modelled. This covers the argument check, `train_test_split`, the printed report and the percentage formatting.
- `train_model` (shopping.py:114-121) is not modelled. It is a call into the scikit-learn k-nearest-neighbour classifier, whose code is not part of this model.
- Opening the file and `csv.DictReader` are not modelled. The model receives the records as a sequence of maps from column name to cell text. DictReader's filling of short records with `None`, its handling of extra cells and its quoting rules are not represented.
- Numbers.ParseInt: accepts only an optional sign followed by ASCII digits. Python's `int()` also strips surrounding whitespace, accepts underscores between digits and accepts non-ASCII digits; those texts are malformed here.
- Numbers.ParseFloat: accepts an optional sign, digits with at most one point, and an optional `e`/`E` exponent. Python's `float()` also accepts surrounding whitespace, underscores, `inf`, `infinity` and `nan`, and non-ASCII decimal digits; those texts are malformed here.
- Numbers.ParseFloat: values are exact rationals, so the rounding to binary double precision is not represented. The same goes for overflow to infinity and underflow to zero.
- Evaluator.Evaluate: the rates are exact rationals rather than doubles. The zero-guard branch yields 0.0 where Python yields the integer 0.
- Predictions are taken as a sequence of integers. The comparisons against numpy array elements are not modelled separately.

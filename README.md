# Bike-share feature transformers, modelled in Dafny

This project models the column transformers of the bike-share rental
predictor. The regression pipeline runs them over the raw rental records
before scaling and the random-forest model. Each transformer is a scikit-learn
style object with a two-phase protocol. `fit` learns state from a training
frame. `transform` returns a changed copy of any frame.

- `WeekdayImputer` fills a null or empty weekday label with the three-letter
  name of that row's date. The blank rows are found again on every call.
- `WeathersitImputer` learns the mode of a column in `fit`. `transform`
  replaces that column's nulls and empty strings with it.
- `Mapper` replaces each value of a column with its integer code from a
  table. First it rewrites the table's keys with `str(k)` when the column has
  dtype object, and with `int(k)` otherwise.
- `OutlierHandler` learns a `(lower, upper)` pair per column from two
  quantiles. `transform` clips each column to its pair: the upper bound is
  applied first, then the lower one.
- `drop_columns` removes named columns.

The model works as follows.

- A pandas DataFrame is a `Frames.Frame`. It holds a row count, the column
  labels in order, and a map from label to column. A column has a dtype
  (object, numeric or datetime) and a sequence of cells. A cell is null, a
  string, a number (a real) or a date (days since 1970-01-01).
  `Frames.WellFormed` describes a DataFrame whose column labels are
  distinct, which is the only kind of DataFrame modelled.
- Frames are values, so "work on a copy" needs no extra modelling.
- Python exceptions are `Outcomes.Error` values, named after the class the
  code raises. Calls return `Result` or `Outcome` values.
- Constructor arguments are dynamically typed Python values
  (`PyArgs.Value`), so the constructors' `isinstance` checks are modelled. The
  `New…` methods stand for the constructors and return either a fresh object
  or the exception the constructor raises: a `ValueError` from its checks, or
  a `TypeError` when a quantile is not a number and cannot be compared with
  0 and 1. `NewOutlierHandler` has the defaults 0.25 and 0.75 for its two
  quantiles.
- A Python dict is `PyDicts.Dict`: its items in insertion order, with
  distinct keys.
- The transformers are classes. The fields the source sets in `fit` or
  `transform` are mutable fields: `fillValue` (`fill_value`), `bounds`
  (`bounds_`) and `mappings`. Read-only transforms are functions that read
  the object (`WeathersitImputer.Transform`), or methods with no `modifies`
  clause (`OutlierHandler.Transform`, which loops over the columns as the
  source does).

Behaviours of the code worth knowing:

- The code raises Python's own exceptions, not a dedicated error hierarchy.
  Examples: `KeyError` for an absent column, `ValueError` for a bad
  constructor argument, `AttributeError` before `fit`.
- `OutlierHandler` accepts `lower_quantile > upper_quantile`
  (`PyArgs.CrossedQuantilesAccepted`). With crossed bounds every number becomes
  the lower bound (`OutlierHandling.Clip`).
- An unmapped value is not reported as a mapping error that names it. It
  becomes NaN, and the `astype('int')` cast then fails
  (`Outcomes.IntCastingNaN`).
- `drop_columns` raises pandas' `KeyError`, which lists every missing label.

## Model

| member | source | states |
|---|---|---|
| PyArgs.StringList | bikeshare_model/processing/features.py:12-16 | accepted exactly when the argument is a list and every item is a str, giving those strings in order; a non-list and a list with a non-str item raise ValueError with their two distinct messages |
| PyArgs.Name | bikeshare_model/processing/features.py:40-41 | accepted exactly when the argument is a str; otherwise ValueError("variables should be a str") |
| PyArgs.Table | bikeshare_model/processing/features.py:69-70 | accepted exactly when the argument is a dict; otherwise ValueError("mappings should be a dict") |
| PyArgs.Quantiles | bikeshare_model/processing/features.py:103-104 | accepted exactly when both quantiles are numbers in [0, 1]; an out-of-range lower quantile raises ValueError before the upper one is looked at; a non-number raises TypeError and an out-of-range number ValueError, for either quantile; no order between the two is demanded |
| PyArgs.DefaultQuantilesAccepted | bikeshare_model/processing/features.py:95-104 | the default quantiles 0.25 and 0.75 pass the check |
| PyArgs.CrossedQuantilesAccepted | bikeshare_model/processing/features.py:103-108 | a lower quantile above the upper one passes the check |
| WeekdayImputation.NewWeekdayImputer | bikeshare_model/processing/features.py:10-18 | the object is created exactly when the argument is a list of str, holding those names and no `fill_value`; otherwise the ValueError of the check |
| WeekdayImputation.Unpack | bikeshare_model/processing/features.py:22 | the two names are obtained exactly when there are two; any other count raises ValueError |
| WeekdayImputation.BlankRows | bikeshare_model/processing/features.py:23 | the rows listed are exactly those whose cell is null or '', in increasing order |
| WeekdayImputation.WeekdayImputer.Fit | bikeshare_model/processing/features.py:20-24 | succeeds exactly when there are two names and the weekday column exists, and then `fill_value` holds that column's blank rows; on failure (ValueError, KeyError) the state is unchanged |
| WeekdayImputation.FillRows | bikeshare_model/processing/features.py:31 | the listed rows of the weekday column get the short day name of their date and nothing else changes; absent date column: KeyError; non-datetime date column: AttributeError; a listed row without a date: failure |
| WeekdayImputation.Impute | bikeshare_model/processing/features.py:26-33 | succeeds exactly when both columns exist, the date column is datetime and every blank weekday row has a date; then each blank weekday cell becomes its date's three-letter name, every other cell and column, the column order and the row count are kept, and no blank weekday remains |
| WeekdayImputation.WeekdayImputer.Transform | bikeshare_model/processing/features.py:26-33 | returns `Impute` of the frame whatever `fit` saw, and sets `fill_value` to the blank rows of this frame as soon as the weekday column is found, even when the fill then fails |
| WeekdayImputation.ImputeIdempotent | bikeshare_model/processing/features.py:30-31 | imputing an imputed frame returns it unchanged |
| Calendar.DayName | bikeshare_model/processing/features.py:31 | every date gets one of the seven English weekday names |
| Calendar.DayNameCycle | bikeshare_model/processing/features.py:31 | 1970-01-01 is a Thursday, names repeat every seven days and consecutive dates get different names |
| Calendar.ShortDayName | bikeshare_model/processing/features.py:31 | three letters that begin the date's day name |
| Calendar.ShortDayNamesDistinct | bikeshare_model/processing/features.py:31 | two dates get the same abbreviation exactly when they fall on the same weekday |
| WeathersitImputation.NewWeathersitImputer | bikeshare_model/processing/features.py:38-43 | the object is created exactly when the argument is a str, with no `fill_value`; otherwise ValueError |
| WeathersitImputation.CellLeTotalOrder | bikeshare_model/processing/features.py:47 | the order in which tied modes are sorted is total, antisymmetric and transitive |
| WeathersitImputation.Mode | bikeshare_model/processing/features.py:47 | none exactly when every cell is null; otherwise a non-null cell of the column that is at least as frequent as every other non-null cell, and the smallest among equally frequent ones; '' counts as a value |
| WeathersitImputation.ModeUnique | bikeshare_model/processing/features.py:47 | any cell meeting that description is the one chosen |
| WeathersitImputation.SunnyExample | bikeshare_model/processing/features.py:47 | the mode of ["sunny", "", "rainy", "sunny"] is "sunny" |
| WeathersitImputation.WeathersitImputer.Fit | bikeshare_model/processing/features.py:45-48 | succeeds exactly when the column exists and has a non-null value, storing the mode; absent column: KeyError; all-null column: KeyError(0); on failure `fill_value` is unchanged |
| WeathersitImputation.WeathersitImputer.Transform | bikeshare_model/processing/features.py:50-56 | succeeds exactly when the column exists and `fit` has run; then every null or '' cell of the column becomes `fill_value` and every other cell, column and the row count are kept; absent column: KeyError (checked first); not fitted: AttributeError |
| WeathersitImputation.FillBlanks | bikeshare_model/processing/features.py:53-54 | the column keeps its length; each null or '' cell becomes the fill value and every other cell is kept |
| WeathersitImputation.TransformIdempotent | bikeshare_model/processing/features.py:52-54 | transforming twice equals transforming once, for every stored value including '' |
| OrdinalMapping.NewMapper | bikeshare_model/processing/features.py:64-73 | the object is created exactly when the column name is a str and the table a dict, holding both; otherwise the ValueError of the first failing check |
| PyDicts.GetPut | bikeshare_model/processing/features.py:83 | after storing `v` under `k`, `k` reads `v` and every other key reads as before |
| PyDicts.PutDistinct | bikeshare_model/processing/features.py:83 | storing into a dict keeps its keys distinct |
| PyDicts.ParseInt | bikeshare_model/processing/features.py:83 | `int(s)` succeeds exactly on an optionally signed, non-empty run of decimal digits |
| PyDicts.IntToStrRoundTrip | bikeshare_model/processing/features.py:83 | `int(str(i)) == i` for every int |
| PyDicts.CoerceKey | bikeshare_model/processing/features.py:83 | `str(k)` for an object column and `int(k)` otherwise; a key already of that type is kept; `int` of a string succeeds exactly when the string is an integer literal |
| PyDicts.CoerceKeys | bikeshare_model/processing/features.py:83 | succeeds exactly when every key converts; then every key is a str (object column) or an int (otherwise), and the keys are exactly the converted keys of the table; a failing `int(k)` raises ValueError |
| PyDicts.CoerceKeysGet | bikeshare_model/processing/features.py:83 | each entry's value is found under its converted key unless a later entry converts to the same key, in which case the later value wins |
| PyDicts.CoerceKeysMiss | bikeshare_model/processing/features.py:83 | a key that is no entry's converted key is absent from the converted table |
| PyDicts.CoerceKeysIdempotent | bikeshare_model/processing/features.py:83 | converting an already converted table leaves it as it is, so repeated calls on columns of one dtype see the same table |
| OrdinalMapping.Lookup | bikeshare_model/processing/features.py:84 | a string cell finds the entry under its str key, a whole number the entry under its int key (`1.0 == 1`); a null, a fraction or a date finds none |
| OrdinalMapping.Codes | bikeshare_model/processing/features.py:84 | codes are produced exactly when every cell has an entry, and then each code is the entry of its cell |
| OrdinalMapping.MapColumn | bikeshare_model/processing/features.py:79-86 | absent column: KeyError, table kept; unconvertible key: ValueError, table kept; otherwise the table is replaced by its converted copy, and the call succeeds exactly when every cell has an entry, giving an int column of the codes with every other column and the row count kept; an unmapped cell fails the int cast |
| OrdinalMapping.Mapper.Transform | bikeshare_model/processing/features.py:79-86 | returns what `MapColumn` gives and leaves in `mappings` the table it gives |
| OrdinalMapping.SeasonsMapped | bikeshare_model/processing/features.py:84 | {"spring": 1, "summer": 2} maps ["spring", "summer"] to the ints [1, 2] |
| OrdinalMapping.AutumnUnmapped | bikeshare_model/processing/features.py:84 | the same table fails on ["spring", "autumn"] |
| OutlierHandling.NewOutlierHandler | bikeshare_model/processing/features.py:95-108 | quantiles default to 0.25 and 0.75; the object is created exactly when the variables are a list of str and both quantiles are numbers in [0, 1], holding them and no bounds; otherwise the first failing check's error (ValueError, or TypeError for a non-number quantile) |
| OutlierHandling.Values | bikeshare_model/processing/features.py:114-115 | the values ranked are exactly the column's numbers; nulls are skipped |
| OutlierHandling.ValuesConcat | bikeshare_model/processing/features.py:114-115 | the values keep the row order: those of two stretches of rows are the first's followed by the second's |
| OutlierHandling.OutlierHandler.Fit | bikeshare_model/processing/features.py:110-117 | succeeds exactly when every listed column exists and holds only numbers and nulls (a string, or a date as pandas' Timestamp bounds are not modelled, makes it fail), leaving in `bounds_` the pairs `BoundsOf` gives for all of them; the first bad column raises KeyError naming it when it is absent and TypeError otherwise, and `bounds_` then holds the pairs of the columns before it |
| OutlierHandling.OutlierHandler.BoundsOfSpec | bikeshare_model/processing/features.py:112-116 | the fitted bounds have a key exactly for each listed column, mapped to the lower and upper quantiles of that column's non-null values |
| OutlierHandling.FittedBoundsOrdered | bikeshare_model/processing/features.py:112-116 | with the lower quantile at most the upper one and a quantile function monotone in its level, every fitted pair is in order |
| OutlierHandling.Clip | bikeshare_model/processing/features.py:124-125 | with ordered bounds the result lies within them, an in-range value is unchanged, a value above becomes the upper bound and one below the lower; with crossed bounds every value becomes the lower bound |
| OutlierHandling.ClipIdempotent | bikeshare_model/processing/features.py:124-125 | clipping twice with fixed bounds equals clipping once |
| OutlierHandling.ClippedTwice | bikeshare_model/processing/features.py:122-125 | a column clipped twice with fixed bounds equals that column clipped once |
| OutlierHandling.OutlierHandler.Transform | bikeshare_model/processing/features.py:119-127 | succeeds exactly when there is no listed column or every listed column has bounds, exists, is not a datetime column and holds only numbers and nulls, giving `ClipAll` of the frame; never fitted with a non-empty list: AttributeError |
| OutlierHandling.ClipAllSpec | bikeshare_model/processing/features.py:121-125 | the copy is a DataFrame in which each listed column is its original clipped once to its bounds, nulls and dtype kept, while every other column, the column order and the row count are kept |
| OutlierHandling.ClipAllIdempotent | bikeshare_model/processing/features.py:119-127 | with fixed bounds, the transformed copy can be transformed again and comes out unchanged |
| ColumnDropping.DropColumns | bikeshare_model/processing/features.py:130-132 | fails exactly when some named column is absent, with a KeyError that lists every absent name in the order given; otherwise gives the frame of `Kept` |
| ColumnDropping.Kept | bikeshare_model/processing/features.py:132 | the frame keeps exactly the columns not named, each unchanged and in its original relative order, with the same row count |
| ColumnDropping.WithoutKeepsOrder | bikeshare_model/processing/features.py:132 | two kept labels are in the same relative order before and after dropping |

## Left out

- Quantile computation: `OutlierHandler.Fit` takes the quantile function as a parameter, applied to the column's non-null numbers in row order. Pandas' linear interpolation on floats is not modelled.
- NaN bounds: a column with no non-null number gets NaN bounds in pandas, and then clipping leaves it unchanged. The model's quantile parameter always returns a real.
- Calendar: `.dt.day_name()` is modelled from the day count, with 1970-01-01 as a Thursday. Time of day and time zones are not modelled.
- Floating point: numbers are exact reals, and the float64/int64 distinction is folded into one numeric dtype.
- Dtype inference is simplified: writing a value a column's dtype cannot hold widens it to object; finer upcasting rules are not modelled.
- `int(k)` on strings: leading or trailing whitespace, `_` digit separators and non-ASCII digits are not modelled. Table keys are str or int only, and values are ints.
- Mixed-type ties in `mode()`: numbers are sorted before strings, as pandas does. Where a date ties with a value of another kind, pandas' order is not modelled; the model puts the date last.
- Row labels: the frame index is taken to be positional. A non-default index with duplicate labels is not modelled.
- Exception messages follow the source where it states them. For exceptions raised inside pandas or Python, only the class and a short text are modelled.
- `Mapper.fit` is not modelled: it returns `self` and changes nothing. The `return self` of every `fit` is not modelled either.
- `print` logging in every transform is not modelled.
- `CustomOneHotEncoder` is not modelled: it wraps scikit-learn's `OneHotEncoder`, and the pipeline does not use it.
- `bikeshare_model/pipeline.py` is not modelled: it builds a scikit-learn `Pipeline`, `ColumnTransformer`, `StandardScaler` and `RandomForestRegressor` at import time from configuration.
- `bikeshare_model/train_pipeline.py` is not modelled: it covers dataset loading, the train/test split, model fitting, persistence and float metrics.
- OutlierHandling.OutlierHandler.Fit: pandas computes Timestamp bounds for a datetime column, but the model's bounds are reals, so the model reports a datetime column with a date in it as a failure where pandas succeeds. A datetime column holding only NaT gets real bounds here and NaT bounds in pandas.
- Duplicate column labels are not modelled. With them, `X[var]` returns a DataFrame rather than a Series, and `drop` removes every column with the label.
- OutlierHandling.OutlierHandler.Transform: on failure it says which exception only when the handler was never fitted. In the other failure cases it states only that some listed column cannot be clipped, not whether the error is KeyError or TypeError.

# Low-stress piping report layer, modelled in Dafny

This project models the reporting and compliance layer of `header.py`, a
helper module for documents about cryogenic piping systems. It covers four
things:

- **Error markers.** `format_err_msg` wraps a message in a red LaTeX box and
  turns underscores into spaces. `missing_file_error` picks a missing-file
  marker, a missing-folder marker, or returns the exception unchanged.
- **Material phrase.** `get_materials` collects the (type tag, material)
  pairs of some components. `summarize_material` turns their distinct
  material names into an English phrase. If more than one name matches the
  regular expression `^3.*SS$` (`is_300_series`), the matching names collapse
  into "300 series stainless steel".
- **Low-stress check.** `check_low_stress` is the four-rule gate of the
  FESHM 5031.1 low-stress piping category. The design pressure must be below
  150 psid. Every component's design/rating ratio must be at most 0.2. The
  design temperature must be at most 366 degC and not below any material's
  floor temperature `T_min`. `pressure_rating` rates a fitting by its stated
  pressure and a tube type by the piping code's formula. Any other type tag
  is a `TypeError`.
- **Material catalogue.** Six constant materials: 304, 304L, 316 and 316L
  stainless steel, copper and brass, each with an allowable stress `S` and a
  floor temperature `T_min`.

Units: pressures and stresses are `real` psi, and temperatures are `real`
degC. The Fahrenheit floors of the catalogue are converted exactly
(-425 degF is -2285/9 degC). The exceptions the code raises are values of
`Piping.Error` inside a `Result`. A missing `S` or `T_min` attribute is an
`AttributeError`, P_des / 0 is a `ZeroDivisionError`, and `result[-1]` on no
names is an `IndexError`. The piping code's tube formula
(`ht.piping.pressure_rating`) is a function parameter of type
`LowStress.TubeFormula`.

Files: `text.dfy` (module `Text`, the Python string built-ins the code
relies on), `latex.dfy` (`Latex`), `piping.dfy` (`Piping`: records, errors,
catalogue), `summary.dfy` (`MaterialSummary`), `low_stress.dfy`
(`LowStress`).

The model follows the code in these points:

- The tag is a free string, not a closed enumeration. A "Flange" is
  rejected only when it gets rated.
- A single material name reads "and X", as the code produces it.
- No material names is an `IndexError` (`EmptyList`), not a dedicated error.
- The regular expression is modelled as Python's `re.search` reads it. `.`
  does not match a newline, and `$` also matches before a final newline.
  On names without a newline this is exactly "starts with 3, ends with SS"
  (`IsStainless300Plain`).
- `if result:` tests the joined string. So when the only non-matching name
  is the empty string, no ", and " is added (`Phrase300`).
- The catalogue constants are plain data. There is no lookup by name.

## Model

| member | source | states |
|---|---|---|
| Text.ReplaceUnderscores | header.py:38 | the result has the input's length; each '_' becomes ' ' and every other character is kept |
| Text.ReplaceUnderscoresIdempotent | header.py:38 | the replaced text has no underscore, and replacing again changes nothing |
| Text.SortedSet | header.py:103 | `sorted` of a set of names is strictly increasing in Python's str order, has exactly the set's elements and the set's size |
| Text.SortedUnique | header.py:103 | two strictly sorted listings of the same names are equal, so the sorted order is fully determined |
| Text.JoinEmpty | header.py:96-97 | `', '.join` gives "" exactly for no items or the single item "" |
| Text.JoinSnoc | header.py:105 | joining `xs + [y]` is joining `xs`, then ", ", then `y` |
| Text.JoinContainsItems | header.py:105 | every item occurs as a substring of the joined string |
| Latex.FormatErrMsg | header.py:35-40 | the result is `\colorbox{red}{`, then the text with each '_' replaced by ' ' character by character, then `}`; nothing between the braces is an underscore |
| Latex.FormatErrMsgUnwraps | header.py:35-40 | the boxed part is the replaced text; texts that differ only by '_' versus ' ' give the same marker |
| Latex.MissingFileError | header.py:42-53 | a marker is returned exactly when the file name or "images" occurs in the message; the file name wins when both occur; otherwise the exception comes back unchanged |
| Latex.MissingFileErrorMarkers | header.py:42-53 | every marker returned is a red box with no underscore inside, even for file names with underscores |
| Latex.MissingFileErrorEmptyName | header.py:45-47 | the empty file name occurs in every message, so it always gives the "Missing  file" marker |
| Piping.FahrenheitToCelsius | header.py:148 | the conversion is inverted by c * 9/5 + 32 |
| Piping.CatalogueComplete | header.py:144-170 | every catalogue material has S and T_min; the names are distinct; the floors are -2285/9, -2420/9 and -1785/9 degC |
| MaterialSummary.IsStainless300 | header.py:96 | a name matching `^3.*SS$` starts with '3', ends with "SS" or with "SS" and one final newline, and has no newline before its last character |
| MaterialSummary.IsStainless300Plain | header.py:96 | on names without a newline, matching `^3.*SS$` means: starts with '3', ends with "SS" |
| MaterialSummary.CatalogueGrades | header.py:144-166 | the four stainless grades match the pattern; copper and brass do not |
| MaterialSummary.GetMaterials | header.py:84-88 | the result holds exactly the (type, material) pairs of the components, duplicates collapsed, so it is no larger than the input |
| MaterialSummary.Is300Series | header.py:107-108 | "more than one matching name" holds exactly when two different names of the set match |
| MaterialSummary.WithoutStainless | header.py:96 | the filter keeps exactly the non-matching names and keeps a strictly sorted list strictly sorted |
| MaterialSummary.FilterSorted | header.py:96 | filtering the sorted names equals sorting the non-matching names |
| MaterialSummary.Phrase300Steps | header.py:96-101 | joining, adding ", and " only when the join is non-empty, then the suffix, gives the 300-series phrase |
| MaterialSummary.Phrase300Shape | header.py:96-101 | the 300-series phrase ends with "300 series stainless steel" and mentions every listed name |
| MaterialSummary.JoinAndLast | header.py:104-105 | joining after prefixing the last item with "and " puts ", and " before it |
| MaterialSummary.EnglishListSteps | header.py:103-105 | prefixing the last sorted name with "and " in place, then joining, gives the English enumeration |
| MaterialSummary.EnglishListMentions | header.py:103-105 | the enumeration mentions every listed name |
| MaterialSummary.Summary | header.py:95-105 | the phrase fails, with the IndexError, exactly when there are no names; a 300-series phrase ends with "300 series stainless steel" and mentions every non-matching name; any other phrase mentions every name |
| MaterialSummary.Summary300Series | header.py:95-101 | for a 300-series set, the phrase lists any sorted listing of exactly the non-matching names, mentions each of them and ends with "300 series stainless steel" |
| MaterialSummary.Summary300Collapses | header.py:95-101 | matching names are never itemised: adding one more matching name to a 300-series set leaves the phrase unchanged |
| MaterialSummary.SummaryPlainList | header.py:102-105 | otherwise the phrase is the English enumeration of any sorted listing of all the names, and mentions every name |
| MaterialSummary.SummaryEdgeCases | header.py:103-104 | no names is an IndexError; one name X gives "and X" |
| MaterialSummary.SummaryExample300 | header.py:95-101 | 304 SS, 316L SS and copper give "copper, and " followed by "300 series stainless steel" |
| MaterialSummary.SummaryExamplePlain | header.py:102-105 | copper and brass give "brass, and copper" |
| MaterialSummary.SummarizeMaterial | header.py:91-105 | the set-building loop and the branch steps compute exactly `Summary` of the distinct material names |
| LowStress.PressureRating | header.py:129-139 | a TypeError occurs exactly for tags other than the three tube types and "Fitting"; a fitting is rated by its own P; a tube type by the formula applied to its material's S, and by the AttributeError for S when the material has none |
| LowStress.FittingRatingIgnoresFormula | header.py:135-136 | a fitting's rating is its stated P whatever the formula and the factors E, W, Y |
| LowStress.Ratio | header.py:116 | the ratio is defined exactly when rating succeeds with a non-zero value, and then ratio times rating is P_des; otherwise the error is the rating's, or ZeroDivisionError for a zero rating |
| LowStress.Ratios | header.py:116 | the ratio list succeeds exactly when every component's ratio does, and then holds them in order; an error raised is some component's ratio error |
| LowStress.Floors | header.py:122 | the floor list succeeds exactly when every material has T_min, and then holds them in order; an error raised is the AttributeError of a material without T_min |
| LowStress.CheckLowStress | header.py:110-126 | 150 psid or more fails the pressure rule before any component is rated; a pass keeps P_des below 150 and T_des at most 366; every exception raised is a component's rating or division error or a missing T_min |
| LowStress.RatiosAgree | header.py:116-118 | the list-based rule 2 test agrees with "every component rated with ratio at most 0.2" |
| LowStress.FloorsAgree | header.py:122-124 | the list-based rule 4 test agrees with "no material's floor above T_des" |
| LowStress.CheckLowStressPasses | header.py:110-126 | the check returns True exactly when P_des < 150, every ratio is at most 0.2, T_des <= 366 and T_des >= every T_min |
| LowStress.CheckLowStressVerdicts | header.py:113-124 | each negative verdict is the first failing rule in the source's order; the pressure rule fails for P_des >= 150 whatever the components, even unratable ones |
| LowStress.CheckLowStressRaises | header.py:116-124 | below 150 psid the check raises exactly when some component cannot be rated, or when rules 2 and 3 pass and some material lacks T_min |
| LowStress.RatiosFirstError | header.py:116 | the list is built in full: the first unratable component's error is raised, whatever the other ratios |
| LowStress.CheckLowStressFirstRatingError | header.py:113-116 | once the pressure rule passes, the first unratable component's error is the check's outcome |
| LowStress.FloorsFirstError | header.py:122 | the first material without T_min decides the AttributeError raised |
| LowStress.CatalogueNeverRaises | header.py:110-139 | catalogue materials with known tags, positive fitting ratings and a positive tube formula never make the check raise |
| LowStress.CheckLowStressScenarios | header.py:110-139 | two 500 psi 304L SS fittings pass at 100 psi and 20 degC and fail at 200 psi; "Flange" raises TypeError; a material without T_min raises AttributeError |

## Left out

- `make_pics` (header.py:14-32) is left out. It is file-system listing, PDF rasterisation through an image library, and printing.
- The nested `kappa` and `lin_exp` functions in `Material.__init__` are left out. They are dead code that never reaches an instance, and they call thermal-property lookups in floating point.
- The body of the piping code's tube rating formula is left out. It is a function parameter. No positivity is assumed, because division by a zero rating is modelled as an error. Positivity appears only as a hypothesis of `LowStress.CatalogueNeverRaises`.
- Unit arithmetic and the degF/degC conversion machinery are left out. Values are exact reals in fixed units, and "psid" is read as psi of differential pressure.
- Floating-point rounding of P_des / rating is left out. The model divides exact rationals.
- The messages `check_low_stress` prints are returned as `LowStress.Verdict` reason codes. The printing itself is left out.
- The `rho` and `nu` attributes and the unused imports are left out. No logic reads them.
- `str(error)` on an exception is the exception's message field (`Latex.FileError`). How Python renders particular exception types is not modelled.
- The AttributeError value `Piping.MissingAttribute` records the material's name as well as the attribute. Python's message names only the class and the attribute, so the model's error is more specific than the exception's text.
- MaterialSummary.GetMaterials: Python's `Material` compares and hashes by object identity. The model compares materials by value, so two distinct material objects with equal attributes collapse into one pair.
- The `name`, `size` and `source` fields of a component are carried but not read, as in the code. Only the tube formula may read them.

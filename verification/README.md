# Column descriptors and fixed-precision decimal encoding

A model of `subconscious/column.py`, the field (column) descriptors of a
Redis-backed object mapper, and the proofs of what they promise.

- **Column construction** (`Column.__init__`, `Integer.__init__`,
  `DecimalColumn.__init__`). A descriptor is validated once when it is built
  and never changed afterwards. It is therefore the datatype `Columns.Column`,
  and each Python constructor is a function that returns either that value or
  the `InvalidColumnDefinition` it raises. The order of the checks is the
  source's order: unsupported type, then a key conflict, then a bad enum.
  Python arguments are modelled as `None`, `True`, `False`, other truthy
  objects and other falsy objects. This matters because the key-conflict
  check tests truthiness, while the stored flags test `is True`. An `Enum`
  class is always truthy, even with no members (`EnumMeta.__bool__`).
- **Decimal store encoding** (`DecimalColumn.get_redis_value` and
  `get_python_value`). Encoding multiplies by `10**decimal_places`, truncates
  toward zero with `int()`, and prints the integer. Decoding parses the string
  and divides by `10**decimal_places`. A `Decimal` is modelled as the exact
  rational it denotes (a Dafny `real`).

Modules:
- `Wrappers` (`wrappers.dfy`): `Option` and `Result`.
- `IntStrings` (`int_strings.dfy`): Python's `str` on integers, the
  sign-and-digits strings it produces, and their parser.
- `ExactDecimal` (`exact_decimal.dfy`): `10**places`, truncation toward zero,
  and truncation to a number of decimal places.
- `Columns` (`column.dfy`): the descriptors and their constructors.
- `DecimalEncoding` (`decimal_encoding.dfy`): the store encoding and its
  round-trip laws.

## Model

| member | source | states |
|---|---|---|
| `Columns.MakeColumn` | subconscious/column.py:16-46 | An unsupported type always fails with the bad-type error, even alongside a key conflict. A supported type with both key roles truthy fails with the key-conflict error. Every column built satisfies `Valid`: supported type, never both primary and composite, composite implies indexed, a key implies required, choices match the enum. The type and enum are kept as passed. |
| `Columns.MakeColumnFailsIff` | subconscious/column.py:23-46 | Construction fails exactly when the type is unsupported, both key arguments are truthy, or a truthy `enum` is not an `Enum` class. Past the first two checks, the only error is "not an enum". |
| `Columns.FlagsFollowArguments` | subconscious/column.py:32-37 | `primary`, `composite` and `sorted` are set only by a literal `True`. `indexed` is `index is True` or composite. `required` is `required is True`, primary or composite. |
| `Columns.KeyColumnsIndexedAndRequired` | subconscious/column.py:28-37 | A composite column is always indexed and required, and a primary column always required, whatever `index` and `required` say. No built column is both primary and composite. |
| `Columns.EnumChoicesAreMemberValues` | subconscious/column.py:39-46 | `enum_choices` is the set of the enum's member values, and it is empty when `enum` is `None` or another falsy object. |
| `Columns.ThreeMemberEnumExample` | subconscious/column.py:44 | An enum with members red, green and blue gives exactly those three choices. |
| `Columns.TruthyKeyIsNotPrimaryExample` | subconscious/column.py:28-37 | `primary_key=1` still conflicts with `composite_key=True`. On its own, it builds a column that is neither primary nor required. |
| `Columns.MakeInteger` | subconscious/column.py:52-71 | Fails exactly when the base constructor with type `int` fails, with the same error. On success, the column is the base column with type `int` and `auto_increment` stored unchanged (default `False`). |
| `Columns.MakeDecimalColumn` | subconscious/column.py:77-83 | The intended `DecimalColumn` constructor. It fails exactly when the base constructor with type `Decimal` fails, with the same error. On success, it is the base column with `decimal_places` stored (default 10). |
| `Columns.DecimalColumnInitAsWritten` | subconscious/column.py:79-80 | The declared constructor always raises `AttributeError`, because `*kwargs` is a tuple and a tuple has no `pop`. |
| `Columns.DecimalColumnAsWrittenNeverBuilds` | subconscious/column.py:79-83 | The declared constructor builds nothing for any arguments, while the intended one builds a column for every `decimal_places`. |
| `IntStrings.NatToString` | subconscious/column.py:90 | `str(n)` of a natural number is a non-empty digit string with no superfluous leading zero, and it starts with '0' only for 0. |
| `IntStrings.IntToString` | subconscious/column.py:90 | `str(n)` is a canonical integer literal, and it starts with '-' exactly when n is negative. |
| `IntStrings.ParseInt` | subconscious/column.py:95 | Accepts exactly the strings made of an optional '-' and at least one digit. The sign of the result follows the sign character. |
| `IntStrings.NatToStringValue` | subconscious/column.py:90 | The digits printed for n denote n. |
| `IntStrings.CanonicalDigitsRoundTrip` | subconscious/column.py:90-95 | Every canonical digit string is what the printer produces for the number it denotes. |
| `IntStrings.IntRoundTrip` | subconscious/column.py:90-95 | Parsing `str(n)` gives back n. |
| `IntStrings.CanonicalRoundTrip` | subconscious/column.py:90-95 | A canonical literal parses, and printing the result gives the literal back. So `str` is a bijection between the integers and the canonical literals. |
| `IntStrings.IntToStringInjective` | subconscious/column.py:90 | Two integers print the same exactly when they are equal. |
| `IntStrings.DigitsValueLeadingZero` | subconscious/column.py:95 | A leading '0' does not change the number a digit string denotes. |
| `IntStrings.StripLeadingZeros` | subconscious/column.py:95 | Removing superfluous leading zeros gives a canonical digit string that denotes the same number. |
| `IntStrings.Canonicalize` | subconscious/column.py:95 | Every accepted literal has a canonical form. |
| `IntStrings.DecodesLikeCanonical` | subconscious/column.py:95 | Every accepted literal, "007", "-0" and "-007" included, decodes to the same number as its canonical form, and that number's `str` is the canonical form. |
| `IntStrings.LeadingZerosExample` | subconscious/column.py:95 | "007" decodes to 7, "-0" and "-000" to 0, and "-007" to -7. |
| `ExactDecimal.Scale` | subconscious/column.py:90 | `10**places` is at least 1. |
| `ExactDecimal.Trunc` | subconscious/column.py:90 | `int(x)` truncates toward zero. For x >= 0 it is the largest integer not above x. For x < 0 it is the smallest integer not below x. |
| `ExactDecimal.TruncIntegral` | subconscious/column.py:90 | `int(x)` leaves an integral x unchanged. |
| `ExactDecimal.UpAfterDown` | subconscious/column.py:90-95 | Multiplying n / 10**places by 10**places gives n back. |
| `ExactDecimal.DownAfterUp` | subconscious/column.py:90-95 | Dividing v * 10**places by 10**places gives v back. |
| `ExactDecimal.ScaledDownHasPlaces` | subconscious/column.py:95 | An integer divided by 10**places has at most `places` fractional digits. |
| `ExactDecimal.TruncateToPlacesTowardZero` | subconscious/column.py:90 | Truncating to `places` digits never increases the magnitude and keeps the sign. |
| `ExactDecimal.TruncateToPlacesError` | subconscious/column.py:90 | Truncating to `places` digits moves a value by less than 10**-places. |
| `ExactDecimal.TruncateToPlacesFixedPoints` | subconscious/column.py:90 | The truncated value has at most `places` fractional digits. It equals v exactly when v already has at most `places` fractional digits. |
| `DecimalEncoding.GetRedisValue` | subconscious/column.py:85-90 | The stored string is a canonical integer literal: an optional '-' and digits, with no point, exponent or leading zero. |
| `DecimalEncoding.GetPythonValue` | subconscious/column.py:92-95 | Decoding succeeds exactly on sign-and-digits strings and reports any other string as an invalid decimal string. A decoded value has at most `decimal_places` fractional digits. |
| `DecimalEncoding.RedisValueTruncates` | subconscious/column.py:85-90 | The stored string denotes v * 10**decimal_places truncated toward zero, not rounded. |
| `DecimalEncoding.PythonValueOfInt` | subconscious/column.py:92-95 | Decoding `str(n)` gives n / 10**decimal_places. |
| `DecimalEncoding.RoundTripValue` | subconscious/column.py:85-95 | Storing v and reading it back gives v truncated toward zero to `decimal_places` digits. |
| `DecimalEncoding.RoundTripExact` | subconscious/column.py:85-95 | A value with at most `decimal_places` fractional digits comes back exactly. |
| `DecimalEncoding.RoundTripTruncates` | subconscious/column.py:85-95 | Any value reads back successfully and with at most `decimal_places` digits. The result is no larger in magnitude, has the same sign, and is less than 10**-decimal_places away. It equals v exactly when v had at most `decimal_places` digits. |
| `DecimalEncoding.EncodeAfterRoundTrip` | subconscious/column.py:85-95 | Writing back a value that was read from the store produces the same string. |
| `DecimalEncoding.TwoPlacesExample` | subconscious/column.py:85-95 | With two places, 12.345 is stored as "1234" and -12.345 as "-1234", and "1234" reads back as 12.34. |
| `DecimalEncoding.NonCanonicalDecodesLikeCanonical` | subconscious/column.py:92-95 | A stored string with leading zeros or a signed zero reads back as its canonical form does, which is n / 10**decimal_places for the n it denotes. |
| `DecimalEncoding.LeadingZerosDecodeExample` | subconscious/column.py:92-95 | With two places, "007" reads back as 0.07 and "-0" as 0. |

## Left out

- `Integer.auto_generate` (subconscious/column.py:73-74) is an asynchronous Redis `incr` call. Its effect belongs to the external store.
- `Column.__repr__` (subconscious/column.py:48-49) is a diagnostic string built from a `name` attribute that the owning model assigns later.
- `DecimalEncoding.GetRedisValue`: the float coercion `Decimal(str(decimal_value))` (subconscious/column.py:87-89) is not modelled, because it depends on Python's float `repr`. The input is always an exact decimal.
- `DecimalEncoding.GetRedisValue`: Python's `Decimal` arithmetic runs under a 28-significant-digit context, and the model computes exactly. The two agree only while three conditions hold. The product `v * 10**decimal_places` needs at most 28 significant digits. Its adjusted exponent is at most 999999, the context's `Emax`; beyond that the product raises `decimal.Overflow` (for example `Decimal('1E+999999')` with 10 places). The truncated integer has at most 4300 digits; on Python 3.11 and later, `str()` of a longer `int` raises `ValueError` (for example `Decimal(1)` with `decimal_places=4300`). Where the source raises in these cases, the model returns a string.
- `DecimalEncoding.GetPythonValue`: `Decimal(s)` also accepts '+', surrounding whitespace, underscores, a decimal point, exponents, `NaN` and `Infinity`. The model decodes only the sign-and-digits strings the encoder produces and reports every other string as `InvalidDecimalString`. Non-finite decimals are not modelled on either side.
- `Columns.MakeColumnFailsIff`: enum member values are limited to hashable `str`, `int` and `Decimal` values. The `TypeError` that `set()` raises at subconscious/column.py:44 for an `Enum` with unhashable member values (such as a list) is not modelled, so "fails exactly when" holds only for hashable member values. Python's cross-type numeric equality is not modelled either: `1 == Decimal(1)` in Python, but `IntValue(1)` and `DecimalValue(1.0)` are distinct here.
- `DecimalEncoding.GetPythonValue`: the division at subconscious/column.py:95 is also rounded to 28 significant digits. The exact quotient is the result only when the stored integer n has at most 28 significant digits.
- `DecimalEncoding.PythonValueOfInt`: the same condition applies. The source's result is n / 10**decimal_places only when n has at most 28 significant digits.
- `DecimalEncoding.NonCanonicalDecodesLikeCanonical`: Python keeps the sign of a negative zero ("-0" decodes to `Decimal('-0')`, since dividing a zero keeps its sign and both exponents are 0), which compares equal to zero. The model's reals have a single zero.
- `Columns.MakeColumn`: the error is modelled by its kind (bad type, key conflict, not an enum), not by the formatted message text.
- `Columns.MakeColumn`: `isinstance(enum, EnumMeta)` and iteration over an `Enum` class are replaced by the explicit `EnumClass(memberValues)` tag. Duplicate member values (aliases) collapse in the set in the same way.
- `Columns.MakeDecimalColumn`: `decimal_places` is a natural number. A negative count would make `10**decimal_places` a float, which is not modelled.
- `Columns.DecimalColumnInitAsWritten`: a call with a keyword argument other than `decimal_places` is rejected earlier by Python's argument binding with a `TypeError`. That case is not modelled separately, since the constructor fails either way. A call that passes only `decimal_places` by keyword binds and raises the modelled `AttributeError`.

## Findings

| source | as written | input that shows it | evidently intended | confidence | as-written member | corrected member |
|---|---|---|---|---|---|---|
| subconscious/column.py:79-80 | `def __init__(self, decimal_places=10, *kwargs)` collects extra arguments into a tuple, then calls `kwargs.pop('type', None)` | `DecimalColumn()` raises `AttributeError: 'tuple' object has no attribute 'pop'` | `**kwargs`: drop any `type` keyword, force `Decimal`, store `decimal_places`, and build through the base constructor | high, not executed | `Columns.DecimalColumnInitAsWritten`, `Columns.DecimalColumnAsWrittenNeverBuilds` | `Columns.MakeDecimalColumn` |

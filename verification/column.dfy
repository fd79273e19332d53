/** Column (field) descriptors of a Redis-backed model (subconscious/column.py).

    A descriptor is built once, validated while it is built, and never changed
    afterwards, so it is a datatype value and each Python constructor is a
    function returning either the descriptor or the exception it raises. */
module Columns {
  import opened Wrappers

  /** A Python argument as the constructor sees it: `None`, the singleton
      `True`, `False`, or any other object, truthy (`1`, `"yes"`) or falsy
      (`0`, `""`). The key-conflict check tests truthiness; the stored flags
      test `is True`, so only `TrueArg` sets a flag. */
  datatype Arg = NoneArg | TrueArg | FalseArg | OtherTruthy | OtherFalsy {
    predicate IsTruthy() {
      TrueArg? || OtherTruthy?
    }
  }

  /** The `type` argument. Only `str`, `int` and `Decimal` are supported. */
  datatype FieldType = Str | Int | Decimal | Other(name: string) {
    predicate Supported() {
      !Other?
    }
  }

  /** A raw value an enum member can carry. */
  datatype Value = StrValue(s: string) | IntValue(i: int) | DecimalValue(d: real)

  /** The `enum` argument: `None`; an `Enum` class (an instance of `EnumMeta`),
      given by the values of its members in definition order; or any other
      object, truthy or falsy. An `Enum` class is always truthy, even with no
      members, because `EnumMeta` defines `__bool__` to return `True`. */
  datatype EnumArg = NoEnum | EnumClass(memberValues: seq<Value>) | OtherTruthyEnum | OtherFalsyEnum {
    predicate IsTruthy() {
      EnumClass? || OtherTruthyEnum?
    }
  }

  /** The message kinds of `InvalidColumnDefinition`. */
  datatype InvalidColumnDefinition =
    | BadFieldType(fieldType: FieldType)
    | PrimaryAndComposite
    | NotAnEnum(enum: EnumArg)

  /** What distinguishes `Column`, `Integer` and `DecimalColumn` instances. */
  datatype ColumnKind =
    | PlainColumn
    | IntegerColumn(autoIncrement: Arg)
    | DecimalColumn(decimalPlaces: nat)

  datatype Column = Column(
    fieldType: FieldType,
    primary: bool,
    composite: bool,
    sorted: bool,
    indexed: bool,
    required: bool,
    enum: EnumArg,
    enumChoices: set<Value>,
    kind: ColumnKind)
  {
    /** What every successfully built column satisfies. */
    ghost predicate Valid() {
      && fieldType.Supported()
      && !(primary && composite)
      && (composite ==> indexed)
      && (primary || composite ==> required)
      && (enum.EnumClass? ==> forall v :: v in enumChoices <==> v in enum.memberValues)
      && (!enum.EnumClass? ==> enumChoices == {})
      && (kind.IntegerColumn? ==> fieldType == Int)
      && (kind.DecimalColumn? ==> fieldType == Decimal)
    }
  }

  /** `Column(type, primary_key, composite_key, index, required, enum, sort)`,
      with Python's defaults. The checks run in the source's order: the type
      first, then the key roles, then the enum. */
  function MakeColumn(
    fieldType: FieldType := Str,
    primaryKey: Arg := NoneArg,
    compositeKey: Arg := NoneArg,
    index: Arg := NoneArg,
    required: Arg := NoneArg,
    enum: EnumArg := NoEnum,
    sort: Arg := NoneArg): (r: Result<Column, InvalidColumnDefinition>)
    ensures !fieldType.Supported() ==> r == Failure(BadFieldType(fieldType))
    ensures fieldType.Supported() && primaryKey.IsTruthy() && compositeKey.IsTruthy() ==>
              r == Failure(PrimaryAndComposite)
    ensures r.Success? ==> r.value.Valid()
    ensures r.Success? ==> r.value.fieldType == fieldType && r.value.enum == enum && r.value.kind == PlainColumn
  {
    if !fieldType.Supported() then
      Failure(BadFieldType(fieldType))
    else if primaryKey.IsTruthy() && compositeKey.IsTruthy() then
      Failure(PrimaryAndComposite)
    else
      var primary := primaryKey == TrueArg;
      var composite := compositeKey == TrueArg;
      var indexed := index == TrueArg || composite;
      var isRequired := required == TrueArg || primary || composite;
      var built := Column(fieldType, primary, composite, sort == TrueArg, indexed, isRequired, enum, {}, PlainColumn);
      if enum.IsTruthy() then
        if enum.EnumClass? then
          Success(built.(enumChoices := set v | v in enum.memberValues))
        else
          Failure(NotAnEnum(enum))
      else
        Success(built)
  }

  /** `Integer(primary_key, composite_key, index, required, enum, sort,
      auto_increment)`: the base constructor with `type` fixed to `int`, and
      `auto_increment` stored as given. */
  function MakeInteger(
    primaryKey: Arg := NoneArg,
    compositeKey: Arg := NoneArg,
    index: Arg := NoneArg,
    required: Arg := NoneArg,
    enum: EnumArg := NoEnum,
    sort: Arg := NoneArg,
    autoIncrement: Arg := FalseArg): (r: Result<Column, InvalidColumnDefinition>)
    ensures var base := MakeColumn(Int, primaryKey, compositeKey, index, required, enum, sort);
      && (r.Failure? <==> base.Failure?)
      && (r.Failure? ==> r.error == base.error)
      && (r.Success? ==> r.value.(kind := PlainColumn) == base.value)
    ensures r.Success? ==> r.value.Valid() && r.value.fieldType == Int && r.value.kind == IntegerColumn(autoIncrement)
  {
    var c :- MakeColumn(Int, primaryKey, compositeKey, index, required, enum, sort);
    Success(c.(kind := IntegerColumn(autoIncrement)))
  }

  /** `DecimalColumn(decimal_places, **kwargs)` as it is evidently meant to
      work: any `type` keyword is discarded and `Decimal` used instead, the
      remaining keywords go to the base constructor, and `decimal_places` is
      stored. The source declares `*kwargs` instead, which makes every call
      fail; `DecimalColumnInitAsWritten` models that. A negative
      `decimal_places` would make `10**decimal_places` a float, so the count
      is a `nat`. */
  function MakeDecimalColumn(
    decimalPlaces: nat := 10,
    primaryKey: Arg := NoneArg,
    compositeKey: Arg := NoneArg,
    index: Arg := NoneArg,
    required: Arg := NoneArg,
    enum: EnumArg := NoEnum,
    sort: Arg := NoneArg): (r: Result<Column, InvalidColumnDefinition>)
    ensures var base := MakeColumn(Decimal, primaryKey, compositeKey, index, required, enum, sort);
      && (r.Failure? <==> base.Failure?)
      && (r.Failure? ==> r.error == base.error)
      && (r.Success? ==> r.value.(kind := PlainColumn) == base.value)
    ensures r.Success? ==> r.value.Valid() && r.value.fieldType == Decimal && r.value.kind == DecimalColumn(decimalPlaces)
  {
    var c :- MakeColumn(Decimal, primaryKey, compositeKey, index, required, enum, sort);
    Success(c.(kind := DecimalColumn(decimalPlaces)))
  }

  /** What `DecimalColumn.__init__` raises as declared. */
  datatype InitError = Invalid(reason: InvalidColumnDefinition) | AttributeError(message: string)

  /** `DecimalColumn.__init__` exactly as declared, with `*kwargs`: the extra
      positional arguments arrive as a tuple, a tuple has no `pop`, and the
      first statement raises before anything is stored. This includes a call
      with `decimal_places` given by keyword. (A call with any other keyword
      argument is refused even earlier, by Python's argument binding, and
      cannot be expressed here.) */
  function DecimalColumnInitAsWritten(decimalPlaces: int, positional: seq<Arg>): (r: Result<Column, InitError>)
    ensures r.Failure? && r.error.AttributeError?
  {
    Failure(AttributeError("'tuple' object has no attribute 'pop'"))
  }

  // ---------------------------------------------------------------------
  // Construction properties

  /** Construction fails exactly when the type is unsupported, both key roles
      are truthy, or a truthy `enum` is not an `Enum` class; an unsupported
      type is reported first, a key conflict before a bad enum. */
  lemma MakeColumnFailsIff(fieldType: FieldType, primaryKey: Arg, compositeKey: Arg, index: Arg,
                           required: Arg, enum: EnumArg, sort: Arg)
    ensures var r := MakeColumn(fieldType, primaryKey, compositeKey, index, required, enum, sort);
      && (r.Failure? <==>
            !fieldType.Supported()
            || (primaryKey.IsTruthy() && compositeKey.IsTruthy())
            || enum.OtherTruthyEnum?)
      && (r.Failure? && fieldType.Supported() && !(primaryKey.IsTruthy() && compositeKey.IsTruthy()) ==>
            r.error == NotAnEnum(enum))
  {
  }

  /** The stored flags: `primary`, `composite` and `sorted` are set only by a
      literal `True`; `indexed` also by being composite; `required` also by
      being primary or composite. */
  lemma FlagsFollowArguments(fieldType: FieldType, primaryKey: Arg, compositeKey: Arg, index: Arg,
                             required: Arg, enum: EnumArg, sort: Arg)
    requires MakeColumn(fieldType, primaryKey, compositeKey, index, required, enum, sort).Success?
    ensures var c := MakeColumn(fieldType, primaryKey, compositeKey, index, required, enum, sort).value;
      && c.primary == (primaryKey == TrueArg)
      && c.composite == (compositeKey == TrueArg)
      && c.sorted == (sort == TrueArg)
      && c.indexed == (index == TrueArg || compositeKey == TrueArg)
      && c.required == (required == TrueArg || primaryKey == TrueArg || compositeKey == TrueArg)
  {
  }

  /** A composite column is always indexed and required, and a primary one
      always required, whatever `index` and `required` were passed. */
  lemma KeyColumnsIndexedAndRequired(fieldType: FieldType, primaryKey: Arg, compositeKey: Arg, index: Arg,
                                     required: Arg, enum: EnumArg, sort: Arg)
    requires MakeColumn(fieldType, primaryKey, compositeKey, index, required, enum, sort).Success?
    ensures var c := MakeColumn(fieldType, primaryKey, compositeKey, index, required, enum, sort).value;
      && (compositeKey == TrueArg ==> c.composite && c.indexed && c.required)
      && (primaryKey == TrueArg ==> c.primary && c.required)
      && !(c.primary && c.composite)
  {
  }

  /** `enum_choices` is exactly the set of the member values of an `Enum`
      class, and empty when `enum` is `None` or any other falsy object. */
  lemma EnumChoicesAreMemberValues(fieldType: FieldType, primaryKey: Arg, compositeKey: Arg, index: Arg,
                                   required: Arg, enum: EnumArg, sort: Arg)
    requires MakeColumn(fieldType, primaryKey, compositeKey, index, required, enum, sort).Success?
    ensures var c := MakeColumn(fieldType, primaryKey, compositeKey, index, required, enum, sort).value;
      && (enum.EnumClass? ==> c.enumChoices == set v | v in enum.memberValues)
      && (!enum.EnumClass? ==> c.enumChoices == {})
  {
  }

  /** A three-member enum yields exactly its three values. */
  lemma ThreeMemberEnumExample()
    ensures var r := MakeColumn(Str, enum := EnumClass([StrValue("red"), StrValue("green"), StrValue("blue")]));
      && r.Success?
      && r.value.enumChoices == {StrValue("red"), StrValue("green"), StrValue("blue")}
      && |r.value.enumChoices| == 3
  {
    var r := MakeColumn(Str, enum := EnumClass([StrValue("red"), StrValue("green"), StrValue("blue")]));
    assert r.value.enumChoices == {StrValue("red"), StrValue("green"), StrValue("blue")};
  }

  /** A truthy argument other than `True` blocks a conflicting key role but
      sets no flag: `primary_key=1` gives a column that is neither primary nor
      required. */
  lemma TruthyKeyIsNotPrimaryExample()
    ensures MakeColumn(Int, OtherTruthy, TrueArg).Failure?
    ensures var r := MakeColumn(Int, OtherTruthy);
      r.Success? && !r.value.primary && !r.value.required
  {
  }

  /** The source's `DecimalColumn.__init__` never returns a column, while the
      intended constructor builds one for the default arguments. */
  lemma DecimalColumnAsWrittenNeverBuilds(decimalPlaces: nat, positional: seq<Arg>)
    ensures DecimalColumnInitAsWritten(decimalPlaces, positional).Failure?
    ensures MakeDecimalColumn(decimalPlaces).Success?
  {
  }
}

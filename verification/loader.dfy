/**
 * The field loader: one `Loader` wraps a source mapping (a request body, an array or an
 * object), and a chain `getX(name) -> validator -> ... -> return()` selects one field,
 * converts it, checks it and hands it out. Each getter overwrites the loader's context
 * (`field`, `value`, `isEmpty`, `require`, `isConvert`); each validator reads that context
 * and either throws or returns the loader unchanged.
 *
 * The validators of LoaderValidatorsTrait are members of the class, as the trait is mixed
 * into it. Checks that PHP delegates to the framework or to extensions (the framework's
 * validators, preg_match, the UUID helper, finfo, getimagesizefromstring) and the
 * callbacks the caller passes in are parameters: oracles over the loader's value.
 */
module Loading {
  import opened Wrappers
  import opened Php
  import opened Errors
  import opened QuerySources

  /** What `getSourceValue` yields: the value and its by-reference `$isSet` flag. */
  datatype Fetched = Fetched(value: Value, isSet: bool)

  /** The argument of `checkIsEmpty`: none, a callback, or something that is not callable. */
  datatype EmptinessCheck = NoCallback | Callback(f: Value -> Value) | NotCallable

  /** The verdict of a framework validator (`DynamicModel::validateData(...)->validate()`):
      passed, failed with its first error message, or threw. */
  datatype Verdict = Valid | Invalid(firstError: string) | Broken(message: string)

  predicate IsContainer(v: Value) {
    v.Arr? || v.Obj?
  }

  /** The key under which `getSourceValue` looks `name` up. */
  function SourceKey(source: Value, name: string): Key {
    if source.Obj? then StrKey(name) else ArrayKey(name)
  }

  /** The values `in` checks one by one: the elements of an array, or the value itself. */
  function InValues(v: Value): (vs: seq<Value>)
    ensures v.Arr? ==> |vs| == |v.entries| && forall i :: 0 <= i < |vs| ==> vs[i] == v.entries[i].val
    ensures !v.Arr? ==> vs == [v]
  {
    if v.Arr? then seq(|v.entries|, i requires 0 <= i < |v.entries| => v.entries[i].val) else [v]
  }

  /** `i` is the first value the verdict does not accept. */
  predicate FirstRejected(verdict: Value -> Verdict, vs: seq<Value>, i: int) {
    0 <= i < |vs| && !verdict(vs[i]).Valid? && forall j :: 0 <= j < i ==> verdict(vs[j]).Valid?
  }

  /** What `in` throws for a value its validator rejects: an API error for a validator that
      threw, otherwise `error()` with the validator's first message. */
  function InError(v: Verdict, userMessage: Option<string>): Error
    requires !v.Valid?
  {
    if v.Broken? then ApiError(Text(v.message)) else Raise(Text(v.firstError), userMessage)
  }

  /** What `unique` and `exist` throw for a failed verdict: the framework's own exception
      escapes unchanged, a rejection goes through `error()`. */
  function WrapperError(v: Verdict, userMessage: Option<string>): Error
    requires !v.Valid?
  {
    if v.Broken? then FrameworkError(v.message) else Raise(Text(v.firstError), userMessage)
  }

  /** The extra filter `unique` hands to the framework's uniqueness check: other records
      only (when the model has a truthy id), and, when a relation attribute is named, only
      records sharing the model's value of it. */
  datatype Filter = NoFilter | ExcludeId(id: Value) | AndRelation(base: Filter, attribute: string, operand: Value)

  function UniqueFilter(model: Value, relationAttribute: Option<string>): (f: Filter)
    ensures var id := Property(model, "id");
      Truthy(id) <==> Condition("id", NotEqual, id) in FilterConditions(f)
    ensures relationAttribute.Some? ==>
      var attribute := relationAttribute.value;
      (Truthy(Str(attribute)) <==> Condition(attribute, Equal, Property(model, attribute)) in FilterConditions(f))
    ensures forall c :: c in FilterConditions(f) ==>
      c == Condition("id", NotEqual, Property(model, "id")) ||
      (relationAttribute.Some? && Truthy(Str(relationAttribute.value)) &&
       c == Condition(relationAttribute.value, Equal, Property(model, relationAttribute.value)))
  {
    var id := Property(model, "id");
    var base := if Truthy(id) then ExcludeId(id) else NoFilter;
    if relationAttribute.Some? && Truthy(Str(relationAttribute.value))
    then AndRelation(base, relationAttribute.value, Property(model, relationAttribute.value))
    else base
  }

  /** The `where` conditions a filter amounts to on a query source. */
  function FilterConditions(f: Filter): seq<Condition> {
    match f
    case NoFilter => []
    case ExcludeId(id) => [Condition("id", NotEqual, id)]
    case AndRelation(base, attribute, operand) => FilterConditions(base) + [Condition(attribute, Equal, operand)]
  }

  class Loader {
    var dataSource: Value
    /** The selected field's name; PHP's initial null reads as "" in every message. */
    var field: string
    var value: Value
    /** `null` until known: a getter that resets it leaves the decision to `return()`. */
    var isEmpty: Option<bool>
    var require: bool
    /** Whether a getter has converted a value. */
    var isConvert: bool

    constructor (dataSource: Value)
      ensures this.dataSource == dataSource
      ensures field == "" && value == Null && isEmpty == None && !require && !isConvert
    {
      this.dataSource := dataSource;
      field := "";
      value := Null;
      isEmpty := None;
      require := false;
      isConvert := false;
    }

    /** `getSourceValue($name, $isSet)`: the value stored under `name`, with `isSet` true
        exactly when it is there and not null (PHP's `isset`). */
    function SourceValue(name: string): (r: Fetched)
      reads this`dataSource
      ensures var es := Members(dataSource); var k := SourceKey(dataSource, name);
        r.isSet <==> exists i :: FirstAt(es, k, i) && es[i].val != Null
      ensures var es := Members(dataSource); var k := SourceKey(dataSource, name);
        r.isSet ==> exists i :: FirstAt(es, k, i) && es[i].val == r.value
      ensures !r.isSet ==> r.value == Null
    {
      match Find(Members(dataSource), SourceKey(dataSource, name))
      case Some(v) => Fetched(v, v != Null)
      case None => Fetched(Null, false)
    }

    // -------------------------------------------------------------------------
    // Typed getters

    /** `getString($name, $isRequired, $default)`. */
    method GetString(name: string, isRequired: bool, default: Value) returns (r: Outcome<Error>)
      modifies this`field, this`value, this`isEmpty, this`require, this`isConvert
      ensures default != Null && !default.Str? ==>
        r == Fail(PlainError(BadDefault(StringKind))) && unchanged(this)
      ensures (default == Null || default.Str?) && isRequired && !SourceValue(name).isSet ==>
        r == Fail(ApiError(MissingRequired(name))) && unchanged(this)
      ensures (default == Null || default.Str?) && (!isRequired || SourceValue(name).isSet) ==>
        var f := SourceValue(name);
        field == name &&
        if f.isSet && f.value.Obj? then
          r == Fail(EngineError(ObjectToString)) &&
          unchanged(this`value, this`isEmpty, this`require, this`isConvert)
        else
          r == Pass && isEmpty == None && require == isRequired && isConvert &&
          value == (if f.isSet then Str(StringCast(f.value).value) else default)
    {
      if default != Null && !default.Str? {
        return Fail(PlainError(BadDefault(StringKind)));
      }
      var f := SourceValue(name);
      if isRequired && !f.isSet {
        return Fail(ApiError(MissingRequired(name)));
      }
      field := name;
      if f.isSet {
        var cast := StringCast(f.value);
        if cast.None? {
          return Fail(EngineError(ObjectToString));
        }
        value := Str(cast.value);
      } else {
        value := default;
      }
      isEmpty := None;
      require := isRequired;
      isConvert := true;
      return Pass;
    }

    /** `getInt($name, $isRequired, $default)`: a present value goes through
        FILTER_VALIDATE_INT, so an invalid one becomes `false`. */
    method GetInt(name: string, isRequired: bool, default: Value) returns (r: Outcome<Error>)
      modifies this`field, this`value, this`isEmpty, this`require, this`isConvert
      ensures default != Null && !default.Int? ==>
        r == Fail(PlainError(BadDefault(IntKind))) && unchanged(this)
      ensures (default == Null || default.Int?) && isRequired && !SourceValue(name).isSet ==>
        r == Fail(ApiError(MissingRequired(name))) && unchanged(this)
      ensures (default == Null || default.Int?) && (!isRequired || SourceValue(name).isSet) ==>
        var f := SourceValue(name);
        r == Pass && field == name && isEmpty == None && require == isRequired && isConvert &&
        value == (if f.isSet then FilterInt(f.value) else default)
    {
      if default != Null && !default.Int? {
        return Fail(PlainError(BadDefault(IntKind)));
      }
      var f := SourceValue(name);
      if isRequired && !f.isSet {
        return Fail(ApiError(MissingRequired(name)));
      }
      field := name;
      value := if f.isSet then FilterInt(f.value) else default;
      isEmpty := None;
      require := isRequired;
      isConvert := true;
      return Pass;
    }

    /** `getBool($name, $isRequired, $default)`: unlike the other getters it decides
        emptiness at once: the value is empty exactly when the key is not set. */
    method GetBool(name: string, isRequired: bool, default: Value) returns (r: Outcome<Error>)
      modifies this`field, this`value, this`isEmpty, this`require, this`isConvert
      ensures default != Null && !default.Bool? ==>
        r == Fail(PlainError(BadDefault(BoolKind))) && unchanged(this)
      ensures (default == Null || default.Bool?) && isRequired && !SourceValue(name).isSet ==>
        r == Fail(ApiError(MissingRequired(name))) && unchanged(this)
      ensures (default == Null || default.Bool?) && (!isRequired || SourceValue(name).isSet) ==>
        var f := SourceValue(name);
        r == Pass && field == name && isEmpty == Some(!f.isSet) && require == isRequired && isConvert &&
        value == (if f.isSet then Bool(FilterBool(f.value)) else default)
    {
      if default != Null && !default.Bool? {
        return Fail(PlainError(BadDefault(BoolKind)));
      }
      var f := SourceValue(name);
      if isRequired && !f.isSet {
        return Fail(ApiError(MissingRequired(name)));
      }
      field := name;
      value := if f.isSet then Bool(FilterBool(f.value)) else default;
      isEmpty := Some(!f.isSet);
      require := isRequired;
      isConvert := true;
      return Pass;
    }

    /** `getArray($name, $isRequired, $default)`: a present value is cast with `(array)`. */
    method GetArray(name: string, isRequired: bool, default: Value) returns (r: Outcome<Error>)
      modifies this`field, this`value, this`isEmpty, this`require, this`isConvert
      ensures default != Null && !default.Arr? ==>
        r == Fail(PlainError(BadDefault(ArrayKind))) && unchanged(this)
      ensures (default == Null || default.Arr?) && isRequired && !SourceValue(name).isSet ==>
        r == Fail(ApiError(MissingRequired(name))) && unchanged(this)
      ensures (default == Null || default.Arr?) && (!isRequired || SourceValue(name).isSet) ==>
        var f := SourceValue(name);
        r == Pass && field == name && isEmpty == None && require == isRequired && isConvert &&
        value == (if f.isSet then ArrayCast(f.value) else default)
    {
      if default != Null && !default.Arr? {
        return Fail(PlainError(BadDefault(ArrayKind)));
      }
      var f := SourceValue(name);
      if isRequired && !f.isSet {
        return Fail(ApiError(MissingRequired(name)));
      }
      field := name;
      value := if f.isSet then ArrayCast(f.value) else default;
      isEmpty := None;
      require := isRequired;
      isConvert := true;
      return Pass;
    }

    /** `getEntity($name, $callback, $default, $isRequired)`. The callback receives the
        default entity and the nested data (PHP passes a new Loader over that data) and must
        give back an entity of the default's kind, array or object. `require` is set first,
        so it changes even when the call throws; `isEmpty` is never touched. */
    method GetEntity(name: string, callback: Option<(Value, Value) -> Value>, default: Value, isRequired: bool)
      returns (r: Outcome<Error>)
      modifies this`field, this`value, this`require, this`isConvert
      ensures require == isRequired
      ensures !IsContainer(default) ==>
        r == Fail(ApiError(BadEntityDefault)) && unchanged(this`field, this`value, this`isConvert)
      ensures IsContainer(default) && callback.None? ==>
        r == Fail(RuntimeError(CallbackMissing)) && unchanged(this`field, this`value, this`isConvert)
      ensures IsContainer(default) && callback.Some? && !isRequired && !SourceValue(name).isSet ==>
        r == Pass && field == name && value == default && isConvert
      ensures IsContainer(default) && callback.Some? && (isRequired || SourceValue(name).isSet) ==>
        var f := SourceValue(name);
        var input := if f.isSet then f.value else default;
        var output := callback.value(default, input);
        if !IsContainer(input) then
          r == Fail(RuntimeError(EntityNotContainer)) && unchanged(this`field, this`value, this`isConvert)
        else if default.Arr? && !output.Arr? then
          r == Fail(RuntimeError(EntityNotArray)) && unchanged(this`field, this`value, this`isConvert)
        else if default.Obj? && !output.Obj? then
          r == Fail(RuntimeError(EntityNotObject)) && unchanged(this`field, this`value, this`isConvert)
        else
          r == Pass && field == name && value == output && isConvert
    {
      require := isRequired;
      var f := SourceValue(name);
      if !IsContainer(default) {
        return Fail(ApiError(BadEntityDefault));
      }
      if callback.None? {
        return Fail(RuntimeError(CallbackMissing));
      }
      if !require && !f.isSet {
        field := name;
        value := default;
        isConvert := true;
        return Pass;
      }
      var input := if f.isSet then f.value else default;
      if !IsContainer(input) {
        return Fail(RuntimeError(EntityNotContainer));
      }
      var output := callback.value(default, input);
      if default.Arr? && !output.Arr? {
        return Fail(RuntimeError(EntityNotArray));
      }
      if default.Obj? && !output.Obj? {
        return Fail(RuntimeError(EntityNotObject));
      }
      field := name;
      value := output;
      isConvert := true;
      return Pass;
    }

    // -------------------------------------------------------------------------
    // Finishing the chain

    /** `checkIsEmpty($callback)`: decides emptiness with the callback, or with `empty()`
        when none is given; only after a getter has run. */
    method CheckIsEmpty(check: EmptinessCheck) returns (r: Outcome<Error>)
      modifies this`isEmpty
      ensures !isConvert ==> r == Fail(PlainError(NotConverted)) && unchanged(this)
      ensures isConvert && check.NoCallback? ==> r == Pass && isEmpty == Some(Empty(value))
      ensures isConvert && check.Callback? && check.f(value).Bool? ==>
        r == Pass && isEmpty == Some(check.f(value).b)
      ensures isConvert && check.Callback? && !check.f(value).Bool? ==>
        r == Fail(RuntimeError(CheckResultNotBool)) && unchanged(this)
      ensures isConvert && check.NotCallable? ==> r == Fail(RuntimeError(CheckNotCallable)) && unchanged(this)
    {
      if !isConvert {
        return Fail(PlainError(NotConverted));
      }
      if check.NotCallable? {
        return Fail(RuntimeError(CheckNotCallable));
      }
      if check.Callback? {
        var verdict := check.f(value);
        if !verdict.Bool? {
          return Fail(RuntimeError(CheckResultNotBool));
        }
        isEmpty := Some(verdict.b);
      } else {
        isEmpty := Some(Empty(value));
      }
      return Pass;
    }

    /** `return()`: after a getter, settles emptiness if still unknown and yields the value,
        unless the field is required and empty. */
    method Return() returns (r: Result<Value, Error>)
      modifies this`isEmpty
      ensures !isConvert ==> r == Failure(PlainError(NotConverted)) && unchanged(this)
      ensures isConvert ==> isEmpty == (if old(isEmpty).None? then Some(Empty(value)) else old(isEmpty))
      ensures isConvert ==> (r.Failure? <==> require && isEmpty == Some(true))
      ensures isConvert && r.Failure? ==> r.error == ApiError(RequiredEmpty(field))
      ensures r.Success? ==> r.value == value
    {
      if !isConvert {
        return Failure(PlainError(NotConverted));
      }
      if isEmpty.None? {
        var checked := CheckIsEmpty(NoCallback);
      }
      if require && isEmpty == Some(true) {
        return Failure(ApiError(RequiredEmpty(field)));
      }
      return Success(value);
    }

    // -------------------------------------------------------------------------
    // Validators (LoaderValidatorsTrait). A validator that does not throw returns the
    // loader itself, so passing leaves the whole context as it was.

    /** `minLength($bound)`: the value must be a string of at least `bound` characters. */
    function MinLength(bound: int, userMessage: Option<string>): (r: Outcome<Error>)
      reads this
      ensures r.Pass? <==> value.Str? && |value.s| >= bound
      ensures !value.Str? ==> r == Fail(ApiError(NotAString(field)))
      ensures value.Str? && |value.s| < bound ==> r == Fail(Raise(TooShort(field, bound), userMessage))
    {
      if !value.Str? then Fail(Raise(NotAString(field), None))
      else if |value.s| < bound then Fail(Raise(TooShort(field, bound), userMessage))
      else Pass
    }

    /** `maxLength($bound)`: the value must be a string of at most `bound` characters. */
    function MaxLength(bound: int, userMessage: Option<string>): (r: Outcome<Error>)
      reads this
      ensures r.Pass? <==> value.Str? && |value.s| <= bound
      ensures !value.Str? ==> r == Fail(ApiError(NotAString(field)))
      ensures value.Str? && |value.s| > bound ==> r == Fail(Raise(TooLong(field, bound), userMessage))
    {
      if !value.Str? then Fail(Raise(NotAString(field), None))
      else if |value.s| > bound then Fail(Raise(TooLong(field, bound), userMessage))
      else Pass
    }

    /** `maxSize($size)`: the byte length of the value (`strlen`) must not exceed `size`. */
    function MaxSize(size: int, userMessage: Option<string>): (r: Outcome<Error>)
      reads this
      ensures r.Pass? <==> ByteLength(value).Some? && ByteLength(value).value <= size
      ensures value.Str? ==> (r.Pass? <==> Utf8Length(value.s) <= size)
      ensures ByteLength(value).None? ==> r == Fail(EngineError(StrlenOfArray))
      ensures ByteLength(value).Some? && ByteLength(value).value > size ==>
        r == Fail(Raise(TooBig(field, size), userMessage))
    {
      match ByteLength(value)
      case None => Fail(EngineError(StrlenOfArray))
      case Some(n) => if n > size then Fail(Raise(TooBig(field, size), userMessage)) else Pass
    }

    /** `max($bound)` as it is written: it throws "not a number" for every numeric value,
        and compares `intval` of the rest with the bound. */
    function MaxAsWritten(bound: int, userMessage: Option<string>): (r: Outcome<Error>)
      reads this
      ensures r.Pass? <==> !IsNumeric(value) && IntVal(value) <= bound
      ensures IsNumeric(value) ==> r == Fail(ApiError(NotANumber(field)))
    {
      if IsNumeric(value) then Fail(Raise(NotANumber(field), None))
      else if IntVal(value) > bound then Fail(Raise(Above(field, bound), userMessage))
      else Pass
    }

    /** `min($bound)` as it is written: the same inverted number check, and the message of
        `max` ("cannot be greater than") when the value is too small. */
    function MinAsWritten(bound: int, userMessage: Option<string>): (r: Outcome<Error>)
      reads this
      ensures r.Pass? <==> !IsNumeric(value) && IntVal(value) >= bound
      ensures IsNumeric(value) ==> r == Fail(ApiError(NotANumber(field)))
      ensures !IsNumeric(value) && IntVal(value) < bound ==> r == Fail(Raise(Above(field, bound), userMessage))
    {
      if IsNumeric(value) then Fail(Raise(NotANumber(field), None))
      else if IntVal(value) < bound then Fail(Raise(Above(field, bound), userMessage))
      else Pass
    }

    /** `max($bound)` as intended: a number no greater than `bound` passes; anything that is
        not a number is rejected. */
    function Max(bound: int, userMessage: Option<string>): (r: Outcome<Error>)
      reads this
      ensures r.Pass? <==> IsNumeric(value) && IntVal(value) <= bound
      ensures !IsNumeric(value) ==> r == Fail(ApiError(NotANumber(field)))
      ensures IsNumeric(value) && IntVal(value) > bound ==> r == Fail(Raise(Above(field, bound), userMessage))
    {
      if !IsNumeric(value) then Fail(Raise(NotANumber(field), None))
      else if IntVal(value) > bound then Fail(Raise(Above(field, bound), userMessage))
      else Pass
    }

    /** `min($bound)` as intended: a number no smaller than `bound` passes, with a message
        that says the value is too small. */
    function Min(bound: int, userMessage: Option<string>): (r: Outcome<Error>)
      reads this
      ensures r.Pass? <==> IsNumeric(value) && IntVal(value) >= bound
      ensures !IsNumeric(value) ==> r == Fail(ApiError(NotANumber(field)))
      ensures IsNumeric(value) && IntVal(value) < bound ==> r == Fail(Raise(Below(field, bound), userMessage))
    {
      if !IsNumeric(value) then Fail(Raise(NotANumber(field), None))
      else if IntVal(value) < bound then Fail(Raise(Below(field, bound), userMessage))
      else Pass
    }

    /** The guard of `regExp`, `uuid`, `mimeTypeIn` and `fieldInSource`: an optional field
        with an empty value is not checked. */
    predicate SkipsCheck()
      reads this
    {
      !require && Empty(value)
    }

    /** `regExp($expression)`; `matches` stands for `preg_match($expression, $value)`. */
    function RegExp(matches: Value -> bool, userMessage: Option<string>): (r: Outcome<Error>)
      reads this
      ensures SkipsCheck() ==> r == Pass
      ensures !SkipsCheck() ==> (r.Pass? <==> matches(value))
      ensures r.Fail? ==> r.error == Raise(Incorrect(field), userMessage)
    {
      if SkipsCheck() then Pass
      else if !matches(value) then Fail(Raise(Incorrect(field), userMessage))
      else Pass
    }

    /** `uuid()`; `isUuid` stands for `UuidHelper::isValid`. */
    function Uuid(isUuid: Value -> bool, userMessage: Option<string>): (r: Outcome<Error>)
      reads this
      ensures SkipsCheck() ==> r == Pass
      ensures !SkipsCheck() ==> (r.Pass? <==> isUuid(value))
      ensures r.Fail? ==> r.error == Raise(Incorrect(field), userMessage)
    {
      if SkipsCheck() then Pass
      else if !isUuid(value) then Fail(Raise(Incorrect(field), userMessage))
      else Pass
    }

    /** `mimeTypeIn($types)`; `mimeOf` stands for finfo's reading of the content. */
    function MimeTypeIn(types: seq<string>, mimeOf: Value -> string, userMessage: Option<string>): (r: Outcome<Error>)
      reads this
      ensures SkipsCheck() ==> r == Pass
      ensures !SkipsCheck() ==> (r.Pass? <==> mimeOf(value) in types)
      ensures r.Fail? ==> r.error == Raise(BadMimeType(types), userMessage)
    {
      if SkipsCheck() then Pass
      else if mimeOf(value) !in types then Fail(Raise(BadMimeType(types), userMessage))
      else Pass
    }

    /** `imageWidthEquals($width)`: an empty value passes (whether required or not);
        otherwise the image must be readable and at most 1px off. `imageSize` stands for
        `getimagesizefromstring`. */
    function ImageWidthEquals(width: int, imageSize: Value -> Option<(int, int)>, userMessage: Option<string>)
      : (r: Outcome<Error>)
      reads this
      ensures Empty(value) ==> r == Pass
      ensures !Empty(value) ==>
        (r.Pass? <==> imageSize(value).Some? && -1 <= imageSize(value).value.0 - width <= 1)
      ensures r.Fail? ==> r.error == Raise(BadWidth(width), userMessage)
    {
      if Empty(value) then Pass
      else
        match imageSize(value)
        case None => Fail(Raise(BadWidth(width), userMessage))
        case Some(size) =>
          if size.0 - width > 1 || width - size.0 > 1 then Fail(Raise(BadWidth(width), userMessage)) else Pass
    }

    /** `imageHeightEquals($height)`: as `imageWidthEquals`, on the second dimension. */
    function ImageHeightEquals(height: int, imageSize: Value -> Option<(int, int)>, userMessage: Option<string>)
      : (r: Outcome<Error>)
      reads this
      ensures Empty(value) ==> r == Pass
      ensures !Empty(value) ==>
        (r.Pass? <==> imageSize(value).Some? && -1 <= imageSize(value).value.1 - height <= 1)
      ensures r.Fail? ==> r.error == Raise(BadHeight(height), userMessage)
    {
      if Empty(value) then Pass
      else
        match imageSize(value)
        case None => Fail(Raise(BadHeight(height), userMessage))
        case Some(size) =>
          if size.1 - height > 1 || height - size.1 > 1 then Fail(Raise(BadHeight(height), userMessage)) else Pass
    }

    /** `customValidation($callback)`: throws exactly when the callback, given the value,
        the required flag and the field name, says no. */
    function CustomValidation(callback: (Value, bool, string) -> bool, userMessage: Option<string>): (r: Outcome<Error>)
      reads this
      ensures r.Pass? <==> callback(value, require, field)
      ensures r.Fail? ==> r.error == Raise(CustomFailed, userMessage)
    {
      if !callback(value, require, field) then Fail(Raise(CustomFailed, userMessage)) else Pass
    }

    /** `notEmpty()`: throws exactly when the value is empty. */
    function NotEmpty(userMessage: Option<string>): (r: Outcome<Error>)
      reads this
      ensures r.Pass? <==> Truthy(value)
      ensures r.Fail? ==> r.error == Raise(FieldEmpty(field), userMessage)
    {
      if Empty(value) || value == Arr([]) then Fail(Raise(FieldEmpty(field), userMessage)) else Pass
    }

    /** `unique($model, $userMessage, $relationAttribute)`: the framework's uniqueness check
        over the model's class, with the filter built from the model, reduced to its verdict. */
    function Unique(model: Value, relationAttribute: Option<string>, verdict: Filter -> Verdict, userMessage: Option<string>)
      : (r: Outcome<Error>)
      ensures r.Pass? <==> verdict(UniqueFilter(model, relationAttribute)).Valid?
      ensures verdict(UniqueFilter(model, relationAttribute)).Broken? ==>
        r == Fail(FrameworkError(verdict(UniqueFilter(model, relationAttribute)).message))
      ensures verdict(UniqueFilter(model, relationAttribute)).Invalid? ==>
        r == Fail(Raise(Text(verdict(UniqueFilter(model, relationAttribute)).firstError), userMessage))
    {
      var v := verdict(UniqueFilter(model, relationAttribute));
      if v.Valid? then Pass else Fail(WrapperError(v, userMessage))
    }

    /** `exist($class, $attribute)`: the framework's existence check, reduced to its verdict. */
    function Exist(verdict: Verdict, userMessage: Option<string>): (r: Outcome<Error>)
      ensures r.Pass? <==> verdict.Valid?
      ensures verdict.Broken? ==> r == Fail(FrameworkError(verdict.message))
      ensures verdict.Invalid? ==> r == Fail(Raise(Text(verdict.firstError), userMessage))
    {
      if verdict.Valid? then Pass else Fail(WrapperError(verdict, userMessage))
    }

    /** `date($format)`: the framework's date check, reduced to its verdict. A rejection is
        reported through `error('', $userMessage ?? <first error>)`, so it is a client error
        whenever the message that wins is truthy. */
    function Date(verdict: Verdict, userMessage: Option<string>): (r: Outcome<Error>)
      ensures r.Pass? <==> verdict.Valid?
      ensures verdict.Broken? ==> r == Fail(FrameworkError(verdict.message))
      ensures verdict.Invalid? ==>
        var shown := if userMessage.Some? then userMessage.value else verdict.firstError;
        r == Fail(Raise(Text(""), Some(shown)))
    {
      match verdict
      case Valid => Pass
      case Broken(m) => Fail(FrameworkError(m))
      case Invalid(first) =>
        Fail(Raise(Text(""), Some(if userMessage.Some? then userMessage.value else first)))
    }

    /** `in($array)`: every value (each element of an array value) must pass the framework's
        range check; the first one that does not decides the error. */
    method In(verdict: Value -> Verdict, userMessage: Option<string>) returns (r: Outcome<Error>)
      ensures var vs := InValues(value);
        r.Pass? <==> forall i :: 0 <= i < |vs| ==> verdict(vs[i]).Valid?
      ensures var vs := InValues(value);
        r.Fail? ==> exists i :: FirstRejected(verdict, vs, i) && r.error == InError(verdict(vs[i]), userMessage)
    {
      var vs := InValues(value);
      var i := 0;
      while i < |vs|
        invariant 0 <= i <= |vs|
        invariant forall j :: 0 <= j < i ==> verdict(vs[j]).Valid?
      {
        var v := verdict(vs[i]);
        if !v.Valid? {
          assert FirstRejected(verdict, vs, i);
          return Fail(InError(v, userMessage));
        }
        i := i + 1;
      }
      return Pass;
    }

    /** `fieldInSource($source, $column)`: unless the guard skips the check, asks the source
        for records whose `column` equals the value and throws when there are none. */
    method FieldInSource(source: QuerySource, column: string, userMessage: Option<string>) returns (r: Outcome<Error>)
      modifies source
      ensures SkipsCheck() ==> r == Pass && source.conditions == old(source.conditions)
      ensures !SkipsCheck() ==>
        source.conditions == old(source.conditions) + [Condition(column, Equal, value)] &&
        (r.Pass? <==> source.Count() != 0) &&
        (r.Fail? ==> r.error == Raise(NotFoundInSource(column), userMessage))
    {
      if SkipsCheck() {
        return Pass;
      }
      source.Where(column, Equal, value);
      if source.Count() == 0 {
        return Fail(Raise(NotFoundInSource(column), userMessage));
      }
      return Pass;
    }

    /** `uniqueField($model, $source, ..., $relationAttribute)`: narrows the source to other
        records (when the model has an id), to the model's relation value (when a relation
        attribute is named) and to the loader's value, then throws when any record is left.
        There is no skip for empty optional values. The message interpolates the value, so
        for an object value the string conversion throws before `error()` is reached. */
    method UniqueField(model: Value, source: QuerySource, userMessage: Option<string>, relationAttribute: Option<string>)
      returns (r: Outcome<Error>)
      modifies source
      ensures source.conditions ==
        old(source.conditions) + FilterConditions(UniqueFilter(model, relationAttribute)) + [Condition(field, Equal, value)]
      ensures r.Fail? <==> source.Count() > 0
      ensures r.Fail? && !value.Obj? ==> r.error == Raise(Taken(value, field), userMessage)
      ensures r.Fail? && value.Obj? ==> r.error == EngineError(ObjectToString)
    {
      ghost var before := source.conditions;
      var id := Property(model, "id");
      ghost var base := if Truthy(id) then ExcludeId(id) else NoFilter;
      if Truthy(id) {
        source.Where("id", NotEqual, id);
      }
      assert source.conditions == before + FilterConditions(base);
      if relationAttribute.Some? && Truthy(Str(relationAttribute.value)) {
        var attribute := relationAttribute.value;
        source.Where(attribute, Equal, Property(model, attribute));
        assert FilterConditions(AndRelation(base, attribute, Property(model, attribute))) ==
          FilterConditions(base) + [Condition(attribute, Equal, Property(model, attribute))];
      }
      assert source.conditions == before + FilterConditions(UniqueFilter(model, relationAttribute));
      source.Where(field, Equal, value);
      if source.Count() > 0 {
        if value.Obj? {
          return Fail(EngineError(ObjectToString));
        }
        return Fail(Raise(Taken(value, field), userMessage));
      }
      return Pass;
    }
  }

  /** An array source is keyed the way PHP normalises keys, so the decimal name of an
      integer reaches the entry stored under that integer. */
  lemma DecimalNameFindsIntKey(l: Loader, n: int, v: Value)
    requires IntMin <= n <= IntMax
    requires l.dataSource.Arr? && Find(l.dataSource.entries, IntKey(n)) == Some(v) && v != Null
    ensures l.SourceValue(IntToDecimal(n)) == Fetched(v, true)
  {
    ArrayKeyOfDecimal(n);
  }

  /** A parameter sent as the decimal text of a 64-bit integer loads through `getInt` as
      that integer. */
  lemma DecimalTextLoadsAsInt(l: Loader, name: string, n: int)
    requires IntMin <= n <= IntMax
    requires l.SourceValue(name).value == Str(IntToDecimal(n))
    ensures l.SourceValue(name).isSet
    ensures FilterInt(l.SourceValue(name).value) == Int(n)
  {
    FilterIntOfDecimal(n);
  }

  /** The chain `getString($name, true)->return()`: what it hands out is a non-empty string
      taken from the source, never a default. */
  method RequiredString(l: Loader, name: string) returns (r: Result<Value, Error>)
    modifies l`field, l`value, l`isEmpty, l`require, l`isConvert
    ensures r.Success? ==> l.SourceValue(name).isSet && r.value.Str? && Truthy(r.value)
    ensures r.Success? ==> StringCast(l.SourceValue(name).value) == Some(r.value.s)
    ensures !l.SourceValue(name).isSet ==> r == Failure(ApiError(MissingRequired(name)))
  {
    var loaded := l.GetString(name, true, Null);
    if loaded.Fail? {
      return Failure(loaded.error);
    }
    r := l.Return();
  }

  /** The chain `getBool($name, false, $default)->return()`: an absent flag yields the
      default, a present one its FILTER_VALIDATE_BOOLEAN reading; it never throws. */
  method OptionalBool(l: Loader, name: string, default: bool) returns (r: Result<Value, Error>)
    modifies l`field, l`value, l`isEmpty, l`require, l`isConvert
    ensures r.Success?
    ensures var f := l.SourceValue(name);
      r.value == Bool(if f.isSet then FilterBool(f.value) else default)
  {
    var loaded := l.GetBool(name, false, Bool(default));
    r := l.Return();
  }

  /** Counterexample for `max` as written: a numeric value within the bound is rejected as
      "not a number", where the intended check lets it through. */
  lemma MaxRejectsNumbers(l: Loader, bound: int)
    requires l.value == Int(bound)
    ensures l.MaxAsWritten(bound, None) == Fail(ApiError(NotANumber(l.field)))
    ensures l.Max(bound, None) == Pass
  {
  }

  /** Counterexample for `min` as written: a numeric value at the bound is rejected as
      "not a number", where the intended check lets it through. */
  lemma MinRejectsNumbers(l: Loader, bound: int)
    requires l.value == Int(bound)
    ensures l.MinAsWritten(bound, None) == Fail(ApiError(NotANumber(l.field)))
    ensures l.Min(bound, None) == Pass
  {
  }

  /** Counterexample for the message of `min` as written: a non-numeric value below the
      bound is reported as being too large, where the intended check rejects it as not a
      number. */
  lemma MinReportsAbove(l: Loader)
    requires l.value == Str("abc")
    ensures l.MinAsWritten(1, None) == Fail(ApiError(Above(l.field, 1)))
    ensures l.Min(1, None) == Fail(ApiError(NotANumber(l.field)))
  {
    LetterExample();
  }

  /** `max` and `min` compare a number in scientific notation by the value it denotes:
      digits `m`, 'e', digits `p` is numeric and stands for m * 10^p, so the corrected checks
      compare that value with the bound, while `max` as written refuses it as not a number. */
  lemma ExponentCompared(l: Loader, m: nat, p: nat, bound: int)
    requires l.value == Str(Digits(m) + "e" + Digits(p)) && m * Pow10(p) <= IntMax
    ensures l.Max(bound, None).Pass? <==> m * Pow10(p) <= bound
    ensures l.Min(bound, None).Pass? <==> m * Pow10(p) >= bound
    ensures l.MaxAsWritten(bound, None) == Fail(ApiError(NotANumber(l.field)))
  {
    assert l.value.s == Digits(m) + "e" + Digits(p) + "";
    IntValOfScientific(m, p, "");
    ScientificNumeric(m, p, "");
  }

  /** As written, text after an exponent makes a value non-numeric, yet `intval` still
      reads the exponent: such a value is compared by the number it starts with. */
  lemma ExponentPrefixCompared(l: Loader, m: nat, p: nat, rest: string, bound: int)
    requires l.value == Str(Digits(m) + "e" + Digits(p) + rest) && m * Pow10(p) <= IntMax
    requires rest != [] && !IsDigit(rest[0]) && rest[0] !in NumericSpace
    ensures l.MaxAsWritten(bound, None).Pass? <==> m * Pow10(p) <= bound
    ensures l.MinAsWritten(bound, None).Pass? <==> m * Pow10(p) >= bound
  {
    IntValOfScientific(m, p, rest);
    ScientificNumeric(m, p, rest);
  }
}

# altarix-utils core, modelled in Dafny

This project models the self-contained logic of the PHP helper library altarix-utils.

- **The field loader (`Loader`).** A `Loader` wraps a request's data source. A chain such as `getString('name', true)->minLength(3)->return()` selects one field, converts it, checks it and hands it out.
  - The getters `getString`, `getInt`, `getBool`, `getArray` and `getEntity` overwrite the loader's context: `field`, `value`, `isEmpty`, `require` and `isConvert`.
  - `checkIsEmpty` and `return()` settle emptiness and the required rule.
  - `error()` turns a failure into an HTTP 400 `ApiException`, or into a 422 `ClientException` when a user message is given.
- **The validators of `LoaderValidatorsTrait`.** These are modelled as members of the loader class:
  - length and size bounds, numeric bounds, `notEmpty`, `customValidation`;
  - the "optional and empty means unchecked" guard shared by `regExp`, `uuid`, `mimeTypeIn` and `fieldInSource`;
  - the query-source checks `fieldInSource` and `uniqueField`;
  - the error wrappers around the framework checks `in`, `unique`, `exist` and `date`.
- **The enum registry (`Enum`).** Enum objects are constructed with a scalar value and a title. The registry shared by all enum classes is built once per class by `init` and extended by `push`. It is queried by `getEnumObject`, `getValueList` and `getAll`.
- **The memo caches of `CacheTrait`.** There is a class-level cache and a per-object cache, both keyed by an explicit id. They compute on a miss, return a stored value on a hit, and release either one id or everything.
- **The `Helper` functions.** The model covers `isBlank`, `combineUrl`, `arrayOfInstances`, `numbers`, `findInArray`, `getShortClassName` and `getFQCN`.

How the model is built:
- PHP values are a `Value` datatype: null, bool, int, string, ordered array and object with public properties. Floats are not among them. An int is an unbounded integer standing for PHP's int. The numbers the engine functions read from strings lie in the range of a 64-bit build.
- The engine functions follow PHP 8.0 or later. In particular, `strlen` of an array or object throws a `TypeError`, and `is_numeric` accepts trailing whitespace. `array_key_exists` with a boolean key looks up key 0 or 1. PHP 7 warns in the first and last case and refuses "5 " in the second.
- Exceptions are the `Error` datatype, returned through `Outcome` or `Result`.
- The parts of the engine the code relies on are written out in module `Php`. These are `empty()`, array-key normalisation, the casts, `intval`, `is_numeric`, `filter_var`, `strlen`, `explode` and `implode`. `intval` of a string reads the leading numeral the way PHP 7.1 and later do: sign, digits, a fraction and an exponent. The value is truncated toward zero and saturated to the 64-bit range, or is 0 when the numeral overflows a double.
- The framework, the PHP extensions and user callbacks are parameters of the model: functions over the loader's value, or verdicts.
  - Framework: Yii's `DynamicModel` validators.
  - Extensions: `preg_match`, finfo, `getimagesizefromstring` and the UUID helper.
- The tokenizer is replaced by a given token sequence.
- Reflection is replaced by a given sequence of declared enum members and by explicit cache ids.

Files:
- `wrappers.dfy`: `Option`, `Result`, `Outcome`.
- `php.dfy`: the PHP value model and engine functions.
- `errors.dfy`: exceptions and `error()`.
- `query_source.dfy`: the query-source builder.
- `loader.dfy`: `Loader` and its validators.
- `enum.dfy`: enums and the registry.
- `cache.dfy`: the caches.
- `helper.dfy`: the helpers.

## Model

| member | source | states |
|---|---|---|
| Loading.Loader.SourceValue | Loader.php:33-48 | `isSet` holds exactly when the source has the key (as PHP normalises it) with a non-null value; then the value is the first entry under that key, otherwise it is null |
| Loading.DecimalNameFindsIntKey | Loader.php:41-43 | an array source stored under integer key n is reached by the field name spelling n in decimal |
| Errors.Raise | Loader.php:58-65 | `error()` always throws: a client error carrying the user message exactly when that message is truthy (not null, "" or "0"), otherwise an API error carrying the message |
| Errors.StatusCode | ApiException.php:9-14 | an API error answers 400 (set by the `ApiException` constructor) and a client error answers 422 (set by the `ClientException` constructor, ClientException.php line 16), and only they do |
| Loading.Loader.CheckIsEmpty | Loader.php:86-105 | throws when no getter has run; with no callback `isEmpty` becomes `empty(value)`; with a callback it becomes the callback's boolean; a non-boolean result or a non-callable argument throws and changes nothing |
| Loading.Loader.GetEntity | Loader.php:127-168 | `require` is set first whatever follows; a non-container default or a missing callback throws; an optional absent key stores the default without calling the callback; otherwise the input must be a container and the callback's result must be an array for an array default and an object for an object default, or it throws with `field`/`value`/`isConvert` unchanged; `isEmpty` is never touched |
| Loading.Loader.GetString | Loader.php:180-198 | a non-null non-string default throws before anything changes; a required absent key throws an API error naming the field and changes nothing; otherwise `field = name`; an object value makes the cast throw; else `value` is `(string)` of the source value or the default, `isEmpty` is reset, `require` and `isConvert` are set |
| Loading.Loader.GetInt | Loader.php:211-229 | the same default and required checks; `value` is `filter_var(..., FILTER_VALIDATE_INT)` of the source value (an integer or false) or the default; `isEmpty` reset |
| Loading.DecimalTextLoadsAsInt | Loader.php:223 | a field sent as the decimal text of a 64-bit integer is set and converts to that integer |
| Php.FilterIntOfDecimal | Loader.php:223 | FILTER_VALIDATE_INT accepts every in-range decimal numeral as the integer it spells |
| Loading.Loader.GetBool | Loader.php:241-259 | the same default and required checks; `value` is the FILTER_VALIDATE_BOOLEAN reading of the source value or the default; `isEmpty` is set to "the key is not set" at once |
| Php.FilterBool | Loader.php:253 | booleans are kept, only the integer 1 is true, null/arrays/objects are false, a true string is one of the accepted words after trimming and lower-casing |
| Loading.Loader.GetArray | Loader.php:271-289 | the same default and required checks; `value` is `(array)` of the source value (a scalar wrapped at key 0, an array kept) or the default; `isEmpty` reset |
| Php.ArrayCast | Loader.php:283 | `(array)` always gives an array; an array is kept; a scalar becomes a one-entry array under key 0; an object's properties are listed in order with their values |
| Php.ObjectCastLookup | Loader.php:283 | after `(array)` of an object, reading the array at a name, normalised as an array key, gives what reading the property of that name gave, so a property named "5" is reached by key 5 |
| Php.NumericPropertyCast | Loader.php:283 | `(array)` of an object whose property is named "5" holds the value under the integer key 5 |
| Php.StringCast | Loader.php:192 | `(string)` fails exactly on objects and keeps strings |
| Loading.Loader.Return | Loader.php:299-314 | throws when no getter has run; an unknown `isEmpty` is settled with `empty(value)` first; it throws an API error naming the field exactly when the field is required and empty, and otherwise yields `value` |
| Loading.RequiredString | Loader.php:180-198 | the chain `getString(name, true)->return()` yields only a truthy string that is the `(string)` of the source value, never a default; an absent key gives the missing-parameter error |
| Loading.OptionalBool | Loader.php:241-259 | the chain `getBool(name, false, default)->return()` never throws and yields the default for an absent key, the boolean reading of the value otherwise |
| Loading.Loader.In | LoaderValidatorsTrait.php:23-48 | passes exactly when the framework accepts every value (each element of an array value, or the value itself); otherwise the first rejected value decides the error: an API error for a check that threw, `error()` with the first message for a rejection |
| Loading.InValues | LoaderValidatorsTrait.php:25 | an array value is checked element by element, in order; any other value alone |
| Loading.Loader.FieldInSource | LoaderValidatorsTrait.php:65-76 | an optional empty value is not checked and the source gets no condition; otherwise exactly one `column = value` condition is added and it throws exactly when the count is zero |
| Loading.UniqueFilter | LoaderValidatorsTrait.php:89-98 | the filter excludes the model's own id exactly when that id is truthy, adds `attribute = model.attribute` exactly when the relation attribute is non-empty, and holds no other condition |
| Loading.Loader.Unique | LoaderValidatorsTrait.php:89-115 | passes exactly when the framework's verdict on that filter is valid; a framework exception escapes unchanged; a rejection goes through `error()` with the first message |
| Loading.Loader.UniqueField | LoaderValidatorsTrait.php:125-140 | the source receives the id exclusion (when the id is truthy), the relation condition (when named) and `field = value`, in that order and nothing else; it throws exactly when the count is positive: through `error()` with the "already taken" message, or with the engine's string-conversion error when the value is an object, which the message interpolates; there is no skip for empty optional values |
| Loading.Loader.Date | LoaderValidatorsTrait.php:149-170 | passes exactly when the verdict is valid; a rejection throws through `error('', userMessage ?? first error)` |
| Loading.Loader.Exist | LoaderValidatorsTrait.php:181-199 | passes exactly when the verdict is valid; a framework exception escapes; a rejection goes through `error()` |
| Loading.Loader.MaxAsWritten | LoaderValidatorsTrait.php:208-218 | as written: every numeric value throws "not a number"; a non-numeric value passes exactly when its `intval` (which reads a leading numeral with fraction and exponent, so "1e3x" counts as 1000) is at most the bound |
| Loading.Loader.MinAsWritten | LoaderValidatorsTrait.php:227-237 | as written: every numeric value throws "not a number"; a non-numeric value passes exactly when its `intval` is at least the bound, and otherwise throws the "greater than" message |
| Loading.Loader.Max | LoaderValidatorsTrait.php:208-218 | corrected: passes exactly when the value is numeric with `intval` at most the bound; a non-number throws "not a number", a larger number throws "greater than" |
| Loading.Loader.Min | LoaderValidatorsTrait.php:227-237 | corrected: passes exactly when the value is numeric with `intval` at least the bound; a smaller number throws a "less than" message |
| Loading.MaxRejectsNumbers | LoaderValidatorsTrait.php:210-212 | a value equal to the bound is refused as "not a number" by `max` as written and accepted by the corrected one |
| Loading.MinRejectsNumbers | LoaderValidatorsTrait.php:229-231 | a value equal to the bound is refused as "not a number" by `min` as written and accepted by the corrected one |
| Loading.ExponentCompared | LoaderValidatorsTrait.php:210-215 | a value written `m` "e" `p` is numeric: `max` as written refuses it as "not a number", while the corrected `max` and `min` compare m·10^p with the bound |
| Loading.ExponentPrefixCompared | LoaderValidatorsTrait.php:210-234 | a value that starts with `m` "e" `p` and goes on with text that starts with neither a digit nor whitespace (as "1e3x") is not numeric, and `max`/`min` as written compare m·10^p, not m, with the bound |
| Php.IntValOfScientific | LoaderValidatorsTrait.php:213 | `intval` of `m` "e" `p`, followed by text that does not start with a digit, is m·10^p when that fits an int; it is the largest int when m·10^p is larger but finite as a double, and 0 when m·10^p overflows a double |
| Php.ScientificNumeric | LoaderValidatorsTrait.php:210 | `m` "e" `p`, followed by text that does not start with a digit, is numeric exactly when that text is only whitespace |
| Php.IntValOfFraction | LoaderValidatorsTrait.php:213 | `intval` of an in-range whole number followed by "." and any digits is the whole number |
| Loading.MinReportsAbove | LoaderValidatorsTrait.php:232-234 | `min(1)` as written reports the value "abc" as too large |
| Loading.Loader.RegExp | LoaderValidatorsTrait.php:246-258 | an optional empty value passes unchecked; otherwise it passes exactly when the expression matches, and a failure is `error()` with the "incorrect" message |
| Loading.Loader.Uuid | LoaderValidatorsTrait.php:266-277 | the same guard; passes exactly when the value is a valid UUID |
| Loading.Loader.MinLength | LoaderValidatorsTrait.php:286-298 | passes exactly when the value is a string of at least `bound` characters; a non-string throws an API error; a shorter string throws through `error()` |
| Loading.Loader.MaxLength | LoaderValidatorsTrait.php:307-319 | passes exactly when the value is a string of at most `bound` characters; a length equal to the bound passes |
| Loading.Loader.MaxSize | LoaderValidatorsTrait.php:328-336 | passes exactly when `strlen` of the value, its UTF-8 byte length for a string, is at most `size`; an array or object makes `strlen` throw |
| Php.ByteLength | LoaderValidatorsTrait.php:330 | `strlen` fails exactly on arrays and objects and counts a string's UTF-8 bytes |
| Php.Utf8Length | LoaderValidatorsTrait.php:330 | a string's byte length lies between its character count and four times that |
| Loading.Loader.MimeTypeIn | LoaderValidatorsTrait.php:345-360 | the same guard; passes exactly when the detected MIME type is among the allowed ones |
| Loading.Loader.ImageWidthEquals | LoaderValidatorsTrait.php:369-382 | an empty value passes; otherwise it passes exactly when the image is readable and its width is within 1px of the requested one |
| Loading.Loader.ImageHeightEquals | LoaderValidatorsTrait.php:391-404 | the same for the height |
| Loading.Loader.CustomValidation | LoaderValidatorsTrait.php:424-431 | passes exactly when the callback, given value, required flag and field, returns true |
| Loading.Loader.NotEmpty | LoaderValidatorsTrait.php:433-439 | passes exactly when the value is truthy, i.e. throws exactly when it is empty |
| Enums.MakeEnumValue | Enum.php:35-63 | construction succeeds exactly for a scalar value and a string title, and the getters then give back exactly what was passed; a non-scalar value and a non-string title have their own errors, checked in that order |
| Enums.ValueToKey | Enum.php:160-174 | `true` and `false` become "true" and "false", integers and strings are kept, and the result is never a boolean |
| Enums.Table.Put | Enum.php:150 | storing under a key overwrites in place when the key is there and appends it at the end otherwise, keeping every key listed once |
| Enums.Registry.Init | Enum.php:126-152 | a known class is left alone; a new class gets an empty table before anything is checked, then the declared members are stored one by one under their keys until one is flagged as a repetition; throws for no members or for the flagged member; other classes unchanged |
| Enums.FirstRepeatFrom | Enum.php:144-147 | finds the first member whose raw value is already a key of the table built from the members before it |
| Enums.InitStops | Enum.php:140-151 | for a new class with members, the table holds the members before the first flagged one with the repetition error, or all members and no error |
| Enums.InitOutcomeMeaning | Enum.php:140-147 | `init` of a new class throws the no-values error for no members, and otherwise passes exactly when no member is flagged; a failure names a flagged member's value |
| Enums.InitTwice | Enum.php:131-134 | `init` is idempotent: a second call passes and changes nothing, even after a failed first call |
| Enums.NoRepeatIffDistinct | Enum.php:144-150 | without boolean members, `init` as written flags nothing exactly when no two members share a key |
| Enums.ProbesAgree | Enum.php:145-149 | without booleans, the test as written and the test on the stored key flag the same members |
| Enums.FirstKeyRepeatFrom | Enum.php:144-150 | corrected: finds the first member whose own key (its `valueToKey` form) is already a key of the table built from the members before it |
| Enums.KeyRepeatIffDistinct | Enum.php:144-150 | corrected: for all members, booleans included, the key test flags nothing exactly when no two members share a key |
| Enums.CorrectedInitMeaning | Enum.php:140-150 | corrected: `init` of a new class passes exactly when members are declared and their keys are pairwise distinct; a repetition error names a member whose key an earlier member already has |
| Enums.BuildInOrder | Enum.php:144-150 | when no member's key is taken as it is stored, the table lists the members' keys in declaration order and each member under its own key |
| Enums.InitFindsEveryMember | Enum.php:144-151 | after a successful `init` without booleans, the keys are the members' keys in declaration order and each member is stored under its own key |
| Enums.RepeatedTrueAccepted | Enum.php:145-150 | two members with value `true` are not flagged (the probe looks for key 1, the table holds "true"): the table holds one entry, the second member |
| Enums.OneThenTrueRejected | Enum.php:145-149 | members `1` then `true` are flagged as a repetition although they are stored under different keys |
| Enums.Registry.GetEnumObject | Enum.php:91-107 | an empty value gives null without `init`; a non-scalar throws; otherwise `init` runs and its error escapes, a stored key gives the member, and a missing key throws OutOfBounds |
| Enums.Registry.GetValueList | Enum.php:78-83 | after `init`, the keys of the class's table in insertion order |
| Enums.Registry.GetAll | Enum.php:114-119 | after `init`, the class's whole table |
| Enums.Registry.Push | Enum.php:181-186 | the member is stored under its key (overwriting, no repetition check), a new key goes last, other classes are unchanged |
| Enums.PushThenLookup | Enum.php:181-186 | after `push` the member is found under its key and every other key finds what it found before |
| Caches.CacheKey | CacheTrait.php:30 | an integer id is used as is and a string id is normalised as an array key |
| Caches.Memo.Fetch | CacheTrait.php:66-73 | a hit, even of a stored null, returns the stored value without calling the factory; a miss calls it once, stores and returns its result |
| Caches.Memo.Release | CacheTrait.php:76-83 | without an id the cache is emptied; with one only that entry is removed |
| Caches.Holder.Cache | CacheTrait.php:57-74 | `cache` follows the hit/miss rule on the object's own cache |
| Caches.Holder.ReleaseCache | CacheTrait.php:76-83 | `releaseCache` empties or removes one id from the object's cache |
| Caches.Holder.StaticCache | CacheTrait.php:21-38 | `staticCache` follows the same rule on the class-level cache |
| Caches.Holder.ReleaseStaticCache | CacheTrait.php:40-47 | `releaseStaticCache` empties or removes one id from the class-level cache |
| Caches.FetchTwice | CacheTrait.php:66-73 | two requests for an id call the factory at most once and agree |
| Caches.RecomputeAfterRelease | CacheTrait.php:66-83 | after releasing an id the next request calls the factory again, and other entries are kept |
| Caches.SharedClassCache | CacheTrait.php:13-47 | two objects of a class share the class-level cache (the second request is a hit) and leave their own caches alone |
| Helpers.BlankValues | Helper.php:18-21 | blank values are exactly null, false, 0, "" and the empty array; "0" is not blank |
| Helpers.CombineUrlSplit | Helper.php:23-36 | the URL is scheme "://", user, ":" password, then "@" exactly when the user is truthy or a password is given, then host, ":" port, path, "?" query and "#" fragment |
| Helpers.CombineUrlShape | Helper.php:23-36 | the URL begins with everything before the '@', ends with everything after it, and has the '@' between them exactly when there are credentials |
| Helpers.CombineUrlScheme | Helper.php:25 | a URL with a scheme starts with the scheme and "://" |
| Helpers.CombineUrlFragment | Helper.php:33 | a URL with a fragment ends with "#" and the fragment |
| Helpers.NoCredentialsNoAt | Helper.php:28-30 | without user and password the host follows "://" directly |
| Helpers.ArrayOfInstances | Helper.php:106-119 | true exactly for an array all of whose items are instances of the class, so the empty array qualifies and a non-array does not |
| Helpers.Numbers | Helper.php:343-351 | "" when the length is not positive; otherwise splitting the result at commas gives the decimal texts of `from`, `from + 1`, ..., `length` of them |
| Helpers.DecimalsReadBack | Helper.php:343-351 | each piece of `numbers` reads back through `intval` as the integer it came from |
| Php.ExplodeImplode | Helper.php:350 | splitting what `implode` glued gives the pieces back when no piece holds the separator |
| Php.ImplodeExplode | Helper.php:146-148 | gluing the pieces of `explode` gives back the original string |
| Helpers.FindInArray | Helper.php:528-543 | the search stops at the first row that matches or that throws: it gives that row when every requested column is identical (`===`) to the requested value, and throws "cannot use object as array" when the row is an object and there is a column to read; null when no row stops it |
| Helpers.ShortClassName | Helper.php:144-149 | the result holds no backslash, ends the class name and is preceded by a backslash unless it is the whole name |
| Helpers.LastPiece | Helper.php:146-148 | the last piece of `explode` is the text after the last separator |
| Helpers.GetFQCN | Helper.php:159-193 | null exactly when no identifier follows a `class` keyword; otherwise a backslash, then the identifiers seen inside namespace statements before the first class name, then that name, joined with backslashes |
| Helpers.ShortNameOfFQCN | Helper.php:144-193 | `getShortClassName` of what `getFQCN` builds is the class name |
| Helpers.NamespacedClass | Helper.php:159-193 | the tokens of `namespace A\B; class C` give `\A\B\C` |

## Left out

- Floats are not modelled anywhere. This drops the float branch of `valueToKey` and float values in the loader.
- Objects are values, so object identity and aliasing are not modelled. An object's `__toString` is not modelled either, so `(string)` of any object is taken to fail.
- Class names are compared exactly; PHP compares them without regard to case.
- Framework validators are reduced to a verdict. This covers `in`, `unique`, `exist` and `date`, which call Yii's `DynamicModel`. Their own rules are not modelled: range checks, `skipOnEmpty`, the record lookup and date parsing.
- Foreign checks are reduced to a function of the value: `preg_match`, `UuidHelper::isValid`, finfo's MIME detection and `getimagesizefromstring`.
- A callback that throws is not modelled. This covers the `getEntity` callback, the `checkIsEmpty` callback, the `customValidation` callback and a cache's creating function. Also, `getEntity` passes the callback the default and the nested data; the nested `Loader` PHP builds over that data is not modelled.
- The data source is an array or an object. String data sources and string offsets are not modelled.
- `mimeTypeIn` uses `in_array` with loose comparison. Here the MIME type must equal one of the strings.
- Reflection-derived cache ids (an md5 of the closure's source) are not modelled; only explicit ids are.
- Reflection over an enum class's static properties is replaced by the given sequence of declared members.
- `getFQCN` takes the token sequence `token_get_all` would produce; the tokenizer itself is not modelled. PHP 8 produces one `T_NAME_QUALIFIED` token for a namespaced name. The model, like the code, counts that token as neither `T_STRING` nor a keyword, so only a PHP 7 token sequence contributes namespace parts. `Helpers.NamespacedClass` uses one.
- Strings are sequences of Unicode characters and are taken to be valid UTF-8. A PHP byte string that is not valid UTF-8 cannot be represented, and `strlen` is computed as the UTF-8 length of the characters.
- Helpers.Numbers: does not model 64-bit overflow of `$from + $lenth`, because integers are unbounded here.
- `Helper::plural` (ICU message formatting) is not modelled.
- The other `Helper` functions are not modelled. They depend on the file system, the shell, the clock, randomness, JSON, reflection or the framework, or they compute on floats. `Helper::isScalar` is also left out, because its inner check tests the array instead of the item and states no clear contract.
- BaseModel.php is ORM glue and is not part of this model.
- QuerySourceInterface.php is kept only as a list of `where` conditions and a `count` oracle over them.
- `Value.Int` is unbounded, so inputs to the model (a source value, a bound, a cache id) are not limited to the 64-bit range. An int passes through the engine functions unchanged. Only the numbers they read from strings are saturated or rejected, as PHP does.
- Php.IntValOfScientific: states the exact value m·10^p. PHP rounds the numeral to a double first, so when m·10^p has more significant digits than a double holds it reads differently ("9007199254740993e0" reads as 9007199254740992).
- Php.IntValOfFraction: states the whole part of the exact numeral. PHP rounds to a double first, so a long fraction can round up ("0.99999999999999999" reads as 1).
- Loading.ExponentCompared: compares the exact m·10^p with the bound, with the same double-rounding gap.
- Loading.ExponentPrefixCompared: compares the exact m·10^p with the bound, with the same double-rounding gap.
- Php.IntVal: a numeral is read by its exact decimal value, then truncated and saturated. PHP first rounds the numeral to a double, so a numeral with more significant digits than a double holds (about 16) can read differently, for instance near the 64-bit limits.
- Loading.Loader.MaxAsWritten: compares the `intval` reading of Php.IntVal, with the same double-rounding gap.
- Loading.Loader.MinAsWritten: compares the `intval` reading of Php.IntVal, with the same double-rounding gap.
- Loading.Loader.Max: compares the `intval` reading of Php.IntVal, with the same double-rounding gap.
- Loading.Loader.Min: compares the `intval` reading of Php.IntVal, with the same double-rounding gap.
- Helpers.FindInArray: an object implementing `ArrayAccess` is read like any other object, so the read throws instead of calling `offsetGet`. A string row reads as null in every column, while PHP reads one of its bytes for an integer column and warns or throws for other columns.
- Helpers.CombineUrlSplit: this follows the code rather than the design. A user name of "" or "0" without a password produces no '@', because the code tests the user name for truthiness rather than presence.

## Findings

| source | as written | input that shows it | evidently intended | confidence | as-written member | corrected member |
|---|---|---|---|---|---|---|
| LoaderValidatorsTrait.php:210-212 | `max` throws "not a number" when the value *is* numeric | value 5, `max(5)`: refused as not a number | throw when the value is not numeric, then compare | high, not executed | Loading.Loader.MaxAsWritten, Loading.MaxRejectsNumbers | Loading.Loader.Max |
| LoaderValidatorsTrait.php:229-231 | `min` throws "not a number" when the value *is* numeric | value 5, `min(5)`: refused as not a number | throw when the value is not numeric, then compare | high, not executed | Loading.Loader.MinAsWritten, Loading.MinRejectsNumbers | Loading.Loader.Min |
| LoaderValidatorsTrait.php:232-234 | `min` reports a too-small value with the "cannot be greater than" message of `max` | value "abc", `min(1)`: intval 0 < 1 reported as greater than 1 | a "cannot be less than" message | medium, not executed | Loading.Loader.MinAsWritten, Loading.MinReportsAbove | Loading.Loader.Min |
| Enum.php:145-149 | `init` tests the raw value with `array_key_exists` (so `true` is looked up as 1) but stores under `valueToKey` (so `true` is stored under "true") | two members `true`: not reported, and the second replaces the first; `1` then `true`: reported although stored under 1 and "true" | test the key the member is stored under | medium, not executed; the `1`-then-`true` half needs PHP 8.0 or later, where `array_key_exists(true, …)` looks up key 1 | Enums.RepeatedTrueAccepted, Enums.OneThenTrueRejected | Enums.KeyRepeatIffDistinct, Enums.CorrectedInitMeaning |

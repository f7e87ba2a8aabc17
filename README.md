# google-api-java-client core, modelled in Dafny

This project models the core of the Google API client library for Java, together with the Guava helpers it carries. It covers the following parts:

- **`ClassInfo`** (`class_info.dfy`) is the per-class field metadata behind the library's generic key/value data handling.
  - A class's name → field table starts from its superclass's table, taken in the same case mode.
  - The class's eligible declared fields are then added under their names, which are lower-cased in ignore-case mode.
  - A repeated name fails construction.
  - The result keeps a sorted list of names, with the `null` name first.
  - `of` memoises results in two caches, one per case mode, held by a `Registry` object.
  - Classes are entries of a class table. A superclass always has a smaller id than its subclass, which keeps the superclass chain acyclic.
  - `Build` is the functional specification of construction. `Registry.Construct` is the imperative constructor (seed the table, then loop over the declared fields) and is proved equal to it.
- **`Files.simplifyPath` and `Files.getFileExtension`** (`files.dfy`).
  - `SimplifyPath` keeps the source's two loops:
    - the resolution loop over the split components;
    - the loop that strips a leading `"/.."`.
  - `SimplifyPath` is proved equal to the specification function `Simplify`. The output-shape guarantees are proved about `Simplify`.
- **`Objects`** (`objects.dfy`):
  - `equal` and `firstNonNull`;
  - the class-name trimming of `toStringHelper`;
  - the `ToStringHelper` builder, a class whose methods append value holders. Its `ToString` loop is proved against `Render`.
- **`BearerToken`** (`bearer_token.dfy`): the three access methods of RFC 6750, namely the Authorization header (section 2.1), the form-encoded body (section 2.2) and the query parameter (section 2.3). The request is a mutable object that `Intercept` updates.
- **`AbstractHttpContent`** (`http_content.dfy`): the length cache with its `-1` sentinel, the media type, and the default charset.
- **`EmptyImmutableMap`** (`empty_immutable_map.dfy`) and **`Defaults`** (`defaults.dfy`).

`wrappers.dfy` holds `Option`, `Result` and `Outcome`. Java `null` is `None`, and an exception is a `Failure`/`Fail` value. `strings.dfy` holds the shared string helpers `StartsWith`, `LastIndexOf` and `Join`.

## Model

| member | source | states |
|---|---|---|
| Strings.LastIndexOf | src/com/google/common/io/Files.java:777 | The index of the last occurrence of the character, or -1 exactly when it does not occur; no occurrence follows it. |
| Files.Split | src/com/google/common/io/Files.java:731-732 | Splitting on '/' and omitting empty strings yields only non-empty pieces without '/'. |
| Files.SimplifyPath | src/com/google/common/io/Files.java:725-766 | The imperative method (resolution loop, join, leading '/', "/../" stripping loop, final fix-ups) returns exactly `Simplify(pathname)`. |
| Files.StepCancels | src/com/google/common/io/Files.java:739-744 | A ".." right after an ordinary segment removes it again. |
| Files.StepCanonical | src/com/google/common/io/Files.java:736-748 | One resolution step keeps the path canonical: segments only, no ".", and kept ".." only before all other segments. |
| Files.ResolveCanonical | src/com/google/common/io/Files.java:736-748 | The whole resolution loop produces a canonical path. |
| Files.JoinShape | src/com/google/common/io/Files.java:751 | Joining segments with '/' is empty only for no segments, and has no leading or trailing '/' and no "//". |
| Files.SplitJoin | src/com/google/common/io/Files.java:731-751 | Splitting is the inverse of joining segments with '/'. |
| Files.SplitLeadingSlash | src/com/google/common/io/Files.java:752-754 | Prepending '/' does not change the segments. |
| Files.SplitSegment | src/com/google/common/io/Files.java:731-732 | A piece without '/' splits into itself. |
| Files.SplitAppend | src/com/google/common/io/Files.java:731-732 | Splitting `a/b` gives the pieces of `a` followed by those of `b`, so empty strings between repeated, leading or trailing separators are dropped wherever they occur. |
| Files.SplitCollapsesSlashes | src/com/google/common/io/Files.java:713-714 | Multiple and trailing slashes are collapsed: "a//b/" splits into "a" and "b". |
| Files.DropParents | src/com/google/common/io/Files.java:756-758 | The segments left after stripping are a suffix, and at most a lone ".." stays in front. |
| Files.StripJoin | src/com/google/common/io/Files.java:756-758 | Stripping "/.." from an absolute join is the join of the segments with the leading ".." segments dropped. |
| Files.SimplifiedSegmentsCanonical | src/com/google/common/io/Files.java:736-760 | The segments of a simplified path are canonical, and an absolute path keeps no ".." segment. |
| Files.AbsoluteShape | src/com/google/common/io/Files.java:751-763 | For an absolute path the fix-ups give '/' followed by the join of the segments left after the leading ".." ones are stripped (a lone ".." becomes "/"). |
| Files.RelativeShape | src/com/google/common/io/Files.java:751-763 | For a relative path nothing is stripped: the fix-ups give "." for no segments and the join of the segments otherwise. |
| Files.SimplifyShape | src/com/google/common/io/Files.java:725-766 | A simplified path is "." or the join of its canonical segments, behind '/' exactly when the input is absolute. |
| Files.SimplifyPathProperties | src/com/google/common/io/Files.java:725-766 | The results of `simplifyPath`: "" gives "."; the result is never empty; it has no "." segment unless it is "."; it has no "//" and no trailing '/' unless it is "/"; ".." segments come first; an absolute input gives a result starting with '/' that has no ".." segment; a relative input gives a result not starting with '/'. |
| Files.FileExtension | src/com/google/common/io/Files.java:775-779 | The text after the last '.', or "" without a '.'; the extension never contains '.'. |
| ClassInfo.NameLessStrictTotal | src/com/google/api/client/util/ClassInfo.java:167-171 | The name comparator (null first, then `compareTo`) is irreflexive, transitive and total. |
| ClassInfo.Insert | src/com/google/api/client/util/ClassInfo.java:197 | Adding a new name to the sorted name set keeps it strictly sorted, grows it by one, and adds exactly that name. |
| ClassInfo.AddField | src/com/google/api/client/util/ClassInfo.java:180-198 | One loop turn keeps the names sorted and equal to the map's keys. |
| ClassInfo.AddFields | src/com/google/api/client/util/ClassInfo.java:180-198 | The field loop keeps the names sorted and equal to the map's keys. |
| ClassInfo.Build | src/com/google/api/client/util/ClassInfo.java:161-201 | Construction yields sorted names that are exactly the map's keys, and fails for an enum in ignore-case mode. |
| ClassInfo.Inherited | src/com/google/api/client/util/ClassInfo.java:173-178 | The seed taken from the superclass is itself consistent. |
| ClassInfo.AddFieldsSucceeds | src/com/google/api/client/util/ClassInfo.java:180-198 | The field loop succeeds exactly when every eligible field has a key that is neither already present nor repeated by a later field. |
| ClassInfo.AddFieldsKeeps | src/com/google/api/client/util/ClassInfo.java:176-196 | Entries present before the loop are kept unchanged. |
| ClassInfo.AddFieldsRecords | src/com/google/api/client/util/ClassInfo.java:185-196 | Every eligible field is recorded under its (lower-cased) name with its own field information. |
| ClassInfo.AddFieldsOrigin | src/com/google/api/client/util/ClassInfo.java:180-198 | Every key after the loop was present before or belongs to an eligible field. |
| ClassInfo.BuildSucceeds | src/com/google/api/client/util/ClassInfo.java:161-201 | Construction succeeds exactly when the class is not an enum in ignore-case mode, its superclass's construction succeeds, and the declared names are fresh and distinct. |
| ClassInfo.BuildContents | src/com/google/api/client/util/ClassInfo.java:172-198 | The map holds every inherited entry unchanged, every eligible declared field under its key, and nothing else. |
| ClassInfo.BuildInherits | src/com/google/api/client/util/ClassInfo.java:173-178 | The superclass's info in the same mode appears unchanged in the subclass's map and names. |
| ClassInfo.BuildIgnoreCaseLower | src/com/google/api/client/util/ClassInfo.java:186-188 | In ignore-case mode every recorded name is non-null and lower-case, inherited ones included. |
| ClassInfo.ClassInfo.constructor | src/com/google/api/client/util/ClassInfo.java:49-63 | The object stores its class, its mode and the computed map and names. |
| ClassInfo.ClassInfo.GetFieldInfo | src/com/google/api/client/util/ClassInfo.java:123-131 | The entry under the query name, lower-cased in ignore-case mode; null when there is none. |
| ClassInfo.ClassInfo.GetField | src/com/google/api/client/util/ClassInfo.java:139-142 | Null exactly when `getFieldInfo` is null; otherwise that entry's field. |
| ClassInfo.LookupIgnoresCase | src/com/google/api/client/util/ClassInfo.java:125-127 | In ignore-case mode, looking up `s` and looking up `lower(s)` give the same answer. |
| ClassInfo.LookupExact | src/com/google/api/client/util/ClassInfo.java:123-131 | In case-sensitive mode a lookup succeeds exactly for the recorded names. |
| ClassInfo.Registry.constructor | src/com/google/api/client/util/ClassInfo.java:42-47 | Both caches start empty. |
| ClassInfo.Registry.Of | src/com/google/api/client/util/ClassInfo.java:71-73 | `of(c)` behaves as `of(c, false)`: null for null, the cached object on a hit, else a new object equal to construction in case-sensitive mode; the ignore-case cache is untouched. |
| ClassInfo.Registry.OfMode | src/com/google/api/client/util/ClassInfo.java:83-97 | `of(c, ic)` returns null for null. On a hit it returns the same cached object and leaves the cache unchanged. On a miss it stores the constructed object. On failure it reports construction's error. Cached entries are never replaced, new entries are for the class or its superclasses, and the other mode's cache is untouched. |
| ClassInfo.Registry.Construct | src/com/google/api/client/util/ClassInfo.java:161-201 | The private constructor: a fresh object whose map and names equal `Build`, or `Build`'s error; every entry added to the cache on the way is for a proper superclass of the class. |
| Objects.Equal | src/com/google/common/base/Objects.java:57-59 | True for identical references (so `equal(a, a)`); false for null against non-null; otherwise `a.equals(b)`. |
| Objects.EqualSymmetric | src/com/google/common/base/Objects.java:57-59 | Under the `equals` contract, `equal` is symmetric. |
| Objects.FirstNonNull | src/com/google/common/base/Objects.java:188-190 | The first argument when non-null, else the second when non-null, else a `NullPointerException`. |
| Objects.DropDigits | src/com/google/common/base/Objects.java:159 | Removes exactly the leading run of digits. |
| Objects.CollapseAnonymous | src/com/google/common/base/Objects.java:159 | Collapsing "$digits" to "$" keeps the first character and the presence of '$', and leaves no '$' followed by a digit. |
| Objects.AfterLastSeparator | src/com/google/common/base/Objects.java:161-169 | A suffix of the name without '$': it follows the last '$' when there is one, else the last '.', else it is the whole name. |
| Objects.SimpleName | src/com/google/common/base/Objects.java:154-170 | A suffix of the collapsed name without '$'. It follows the last '$' when there is one, else the last '.', else it is the whole name. |
| Objects.CollapsePrefix | src/com/google/common/base/Objects.java:159 | Text without '$' in front of the rest of a name passes through the collapse unchanged. |
| Objects.CollapseWithoutDollar | src/com/google/common/base/Objects.java:159 | A name without '$' is not changed by the collapse. |
| Objects.DropDigitsOf | src/com/google/common/base/Objects.java:159 | A run of digits followed by a non-digit is dropped exactly. |
| Objects.CollapseDollarDigits | src/com/google/common/base/Objects.java:157-159 | The first "$digits" becomes "$", the text before it is kept, and the collapse continues after the digits; with `CollapseWithoutDollar` this determines the collapse of every name. |
| Objects.SimpleNameInner | src/com/google/common/base/Objects.java:157-169 | The simple name of `Outer$<digits>Inner` (no '$' in `Outer` or `Inner`, `Inner` not starting with a digit) is `Inner`. |
| Objects.SimpleNameAnonymousExample | src/com/google/common/base/Objects.java:157-169 | The simple name of "pkg.Outer$1Inner" is "Inner". |
| Objects.SimpleNameTopLevel | src/com/google/common/base/Objects.java:162-169 | For a top-level class the simple name is the part after the last '.'. |
| Objects.NatToString | src/com/google/common/base/Objects.java:285-299 | Decimal rendering is a non-empty string of digits with no leading zero (a single digit exactly below 10, "0" only for zero). |
| Objects.NatToStringRoundTrip | src/com/google/common/base/Objects.java:285-299 | Parsing the decimal rendering gives the number back. |
| Objects.NonNull | src/com/google/common/base/Objects.java:406 | Keeps only holders whose value was not null. |
| Objects.RenderEmpty | src/com/google/common/base/Objects.java:399-421 | With no entries the helper renders as `className{}`. |
| Objects.ShownAll | src/com/google/common/base/Objects.java:405-419 | Without omission every entry is shown, in the order added. |
| Objects.ShownOmitsNulls | src/com/google/common/base/Objects.java:401-406 | With omission exactly the non-null entries are shown, in order, whenever they were added. |
| Objects.ShownKeepsNonNull | src/com/google/common/base/Objects.java:423-427 | Entries not marked null (all primitive entries) are never omitted. |
| Objects.ShownStep | src/com/google/common/base/Objects.java:405-419 | One loop turn appends the next shown entry behind ", " when something was shown before. |
| Objects.ToStringHelper.constructor | src/com/google/common/base/Objects.java:207-209 | A new helper has the given class name, no entries and omission off. |
| Objects.ToStringHelper.ForClass | src/com/google/common/base/Objects.java:120-136 | A helper for a class takes its simple name. |
| Objects.ToStringHelper.OmitNullValues | src/com/google/common/base/Objects.java:217-221 | Turns omission on and keeps the entries. |
| Objects.ToStringHelper.Add | src/com/google/common/base/Objects.java:229-233 | A null name fails and changes nothing; otherwise appends `name=value`, marked null when the value is null. |
| Objects.ToStringHelper.AddPrimitive | src/com/google/common/base/Objects.java:241-304 | A null name fails and changes nothing; otherwise appends `name=value`, never marked null. |
| Objects.ToStringHelper.AddValue | src/com/google/common/base/Objects.java:312-315 | Appends the value's text, marked null when the value is null. |
| Objects.ToStringHelper.AddValuePrimitive | src/com/google/common/base/Objects.java:325-393 | Appends the value's text, never marked null. |
| Objects.ToStringHelper.ToString | src/com/google/common/base/Objects.java:399-421 | The loop returns `className{e1, e2, ...}` over the shown entries and changes nothing, so repeated calls agree. |
| BearerToken.AuthorizationHeader | src/com/google/api/client/auth/oauth2/BearerToken.java:50-57 | The header value starts with "Bearer " followed by the token. |
| BearerToken.TokenFromAuthorization | src/com/google/api/client/auth/oauth2/BearerToken.java:59-65 | A token exactly when a header is present and starts with the case-sensitive "Bearer "; that header is then "Bearer " plus the token. |
| BearerToken.HeaderRoundTrip | src/com/google/api/client/auth/oauth2/BearerToken.java:55-65 | Reading the header that was set gives the token back. |
| BearerToken.LowerCaseSchemeRejected | src/com/google/api/client/auth/oauth2/BearerToken.java:61 | A header starting "bearer " yields no token. |
| BearerToken.GetAccessTokenFromRequest | src/com/google/api/client/auth/oauth2/BearerToken.java:84-111 | The header read is `TokenFromAuthorization` of the Authorization header; form-body and query reads return the value under "access_token", or null when it is absent. |
| BearerToken.Intercept | src/com/google/api/client/auth/oauth2/BearerToken.java:55-106 | The header method sets "Bearer " + token. The form method rejects GET and changes nothing then; otherwise it puts the token under "access_token". The query method sets that URL parameter. Nothing else changes, and on success reading the token back gives it. |
| HttpContent.AbstractHttpContent.constructor | src/com/google/api/client/http/AbstractHttpContent.java:52-62 | The media type is stored and the length cache starts at -1. |
| HttpContent.AbstractHttpContent.GetEncoding | src/com/google/api/client/http/AbstractHttpContent.java:65-67 | No content encoding. |
| HttpContent.AbstractHttpContent.ComputeLength | src/com/google/api/client/http/AbstractHttpContent.java:128-139 | -1 when retry is unsupported; otherwise the byte count written, or the `IOException` that `writeTo` throws. |
| HttpContent.AbstractHttpContent.GetLength | src/com/google/api/client/http/AbstractHttpContent.java:73-78 | A cached length other than -1 is returned unchanged. Otherwise the length is computed and stored, so a computed -1 leaves the cache unset and the next call computes again; an `IOException` from `writeTo` is passed on and leaves the cache at -1. |
| HttpContent.AbstractHttpContent.SetMediaType | src/com/google/api/client/http/AbstractHttpContent.java:99-102 | Replaces only the media type; the cached length is not in its frame. |
| HttpContent.AbstractHttpContent.GetCharset | src/com/google/api/client/http/AbstractHttpContent.java:109-112 | The media type's charset parameter, or UTF-8 without a media type or parameter. |
| HttpContent.AbstractHttpContent.GetType | src/com/google/api/client/http/AbstractHttpContent.java:114-116 | Null exactly without a media type; otherwise the built media type. |
| EmptyImmutableMap.Get | src/com/google/common/collect/EmptyImmutableMap.java:37-39 | Null for every key. |
| EmptyImmutableMap.Size | src/com/google/common/collect/EmptyImmutableMap.java:41-44 | Zero. |
| EmptyImmutableMap.IsEmpty | src/com/google/common/collect/EmptyImmutableMap.java:46-48 | True. |
| EmptyImmutableMap.ContainsKey | src/com/google/common/collect/EmptyImmutableMap.java:50-52 | False for every key. |
| EmptyImmutableMap.ContainsValue | src/com/google/common/collect/EmptyImmutableMap.java:54-56 | False for every value. |
| EmptyImmutableMap.EntrySet | src/com/google/common/collect/EmptyImmutableMap.java:62-64 | The empty set. |
| EmptyImmutableMap.KeySet | src/com/google/common/collect/EmptyImmutableMap.java:66-68 | The empty set. |
| EmptyImmutableMap.Values | src/com/google/common/collect/EmptyImmutableMap.java:70-72 | The empty collection. |
| EmptyImmutableMap.Equals | src/com/google/common/collect/EmptyImmutableMap.java:74-80 | True exactly for a `Map` with no entries. |
| EmptyImmutableMap.IsPartialView | src/com/google/common/collect/EmptyImmutableMap.java:82-84 | False. |
| EmptyImmutableMap.HashCode | src/com/google/common/collect/EmptyImmutableMap.java:86-88 | Zero. |
| EmptyImmutableMap.ToString | src/com/google/common/collect/EmptyImmutableMap.java:90-92 | "{}". |
| EmptyImmutableMap.MapContract | src/com/google/common/collect/EmptyImmutableMap.java:37-92 | The answers agree as the `Map` contract requires: `get` against `containsKey`, `containsKey` against `keySet`, `size` against the key and entry sets, `isEmpty` against `size`, `containsValue` against `entrySet` and `values`, and `equals` holds for the empty map but not for a non-empty one. |
| Defaults.Initialize | src/com/google/common/base/Defaults.java:34-45 | The successive puts build exactly the table, which has an entry for each of the eight primitive types with values, each of that type and zero. |
| Defaults.DefaultValue | src/com/google/common/base/Defaults.java:51-59 | A value exactly for the eight primitive types other than void, of that type and zero (false, '\0', 0); null for void and for every other type. |
| Defaults.ZeroUnique | src/com/google/common/base/Defaults.java:52-54 | A type has one zero value, so the contract of `DefaultValue` fixes its answer. |
| Defaults.DefaultsSize | src/com/google/common/base/Defaults.java:35-44 | The table has exactly eight entries. |

## Left out

- The `WeakHashMap` eviction of the two `ClassInfo` caches and the `synchronized` block around them are not modelled: each cache is a plain map in a `Registry` object, and there is no garbage collection or concurrency.
- Reflection (`getSuperclass`, `getDeclaredFields`, `isEnum`) is represented by the class table, and `FieldInfo.of` by each declared field's eligible flag and optional name. `FieldInfo` is not part of this model.
- `String.intern` and the identity comparison of `IdentityHashMap` keys are replaced by value equality of names.
- Locale-sensitive `toLowerCase` is replaced by lower-casing of the ASCII letters `A`–`Z`.
- `String.compareTo` compares UTF-16 code units, while the model compares Dafny characters. The two agree outside surrogate pairs.
- `ClassInfo.getUnderlyingClass`, `getIgnoreCase`, `getNames` and `isEnum` are read directly as the constant fields `clazz`, `ignoreCase` and `names` and the class table's `isEnum` flag. `Registry.OfMode` states what these fields hold.
- ClassInfo.Registry.OfMode: a class that is not in the class table cannot be passed. Reflection always supplies a class, so this requirement has no Java counterpart.
- `Splitter` and `Joiner` are not part of this model. They are re-implemented as `Split`, which omits empty strings, and `Join`.
- `Files` operations other than `simplifyPath` and `getFileExtension` are not modelled, because they are file-system and stream I/O. The `checkNotNull(fileName)` of `getFileExtension` cannot fail for a Dafny string.
- Files.SimplifyPath: takes a non-null path; the `NullPointerException` of `simplifyPath(null)` is not modelled.
- `Objects.hashCode` is not modelled, because it delegates to `Arrays.hashCode`.
- The `double` and `float` overloads of `add`/`addValue` are not modelled, because floating-point formatting is not modelled.
- The regular expression in `simpleName` is implemented by hand as `CollapseAnonymous`.
- Object values are represented by the string their `toString()` returns. `int` and `long` are unbounded integers rendered in decimal.
- Objects.ToStringHelper.constructor: takes a non-null class name. The `NullPointerException` of `toStringHelper(null)` is not modelled.
- `HttpRequest`, `HttpHeaders`, `UrlEncodedContent`, `Data.mapOf` and `GenericUrl` are not part of this model. The request is a record holding:
  - its method;
  - an optional Authorization header;
  - form data and URL parameters as string maps.
- Parameter values that are not strings are represented by their `toString()`.
- BearerToken.GetAccessTokenFromRequest: a form or query parameter present with a null value cannot be represented (the maps hold strings), so reading it as null is not modelled.
- BearerToken.Intercept: the token is a non-null string; a null token, which Java turns into the header "Bearer null" (read back as "null") or a null parameter value, is not modelled.
- `writeTo` and `ByteCountingOutputStream` are not modelled. What `writeTo` would do (write a number of bytes, or throw an `IOException`) is a parameter of `ComputeLength` and `GetLength`.
- `retrySupported()` is the constant field `retrySupported` of each content object. Subclass overrides of `computeLength` and `getLength` are not modelled.
- `HttpMediaType` is not part of this model. It is represented by its built string and its optional charset parameter, so parsing of the `String` constructor's argument is not modelled. The length is a Java `long`, and its overflow is not modelled.
- `EmptyImmutableMap.createEntrySet` (which only throws), `readResolve` and serialisation are not modelled. `equals` sees its argument through `MapObject`/`OtherObject`.
- Defaults: `float` and `double` zeros are given as the real `0.0`, so the sign of zero is not modelled. Java's `Class` objects are represented by `JavaType`.
- `NaturalOrdering`, `GoogleBrowserClientRequestUrl`, `TokenResponseException`, `JsonHttpContent` and `InputSupplier` are not part of this model. They delegate to collaborators that are not part of it, or do I/O.

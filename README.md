# Identifier derivation for API documentation items

This project models how the documentation site derives stable ids for API items, and proves properties of that model. The code is in `api/identifiers.ts`. It has three operations:

- `toId` walks from an item up its parent chain. Each item it visits emits one segment. A variable emits `(name:variable)`. A non-overloaded function emits `(name:function)`. A non-overloaded method emits `(name:static)` or `(name:instance)`. A non-overloaded constructor emits `(className:constructor)` and its class gets no segment of its own. Every other item emits its canonical reference. The segments are then reversed, joined with `.` and lowercased. Items of kind None, Package, Model or EntryPoint get the empty id, and the walk stops before reaching one.
- `toParameterId` adds a `(name:parameter)` selector to a method's id.
- `toPermalink` joins the first six hex characters of the id's SHA-1 digest, a hyphen and the lowercased display name.

Files:

- `strings.dfy`, module `JsStrings`: the JavaScript built-ins that finish an id. These are `reverse`, `join` and an ASCII `toLowerCase`, with their lemmas: lowercasing distributes over concatenation, lowercasing is idempotent, a joined string starts with the first part and ends with the last, and joining one more part appends the separator and that part.
- `identifiers.dfy`, module `Identifiers`: the item datatype and the walk. The walk is the function `Visit`, which returns the segment an item emits and the item the walk resumes from, together with `Next`, `Walk`, `Visited` and `CanonicalId`. The module also holds the imperative `ToId` and the functions `ParameterId` and `Permalink`.
- `identifier_properties.dfy`, module `IdentifierProperties`: the per-kind rules, stated about the whole id. It also proves that a non-overloaded constructor replaces its class in the walk, that the walk visits only ancestors of supported kind, and the properties of parameter ids and permalinks.

`ToId` is written the way the source runs. A loop reassigns `current` and appends one reference per iteration. In the constructor branch it steps onto the class in the middle of the iteration. The loop stops when the parent is missing or has an unsupported kind. `ToId` is proved equal to the recursive specification `CanonicalId`, and the lemmas are stated about `CanonicalId`.

Notes on the code:

- The source tests `!reference` before falling back to `canonicalReference`. Every selector template starts with `(`, so the test only fires when no rule applied. The model writes `reference` as an `Option<string>`.
- A non-overloaded constructor does not check its class's kind. It always uses the class's `name` and resumes the walk at the class's parent, and the model does the same. An overloaded constructor emits its own canonical reference, and the walk goes on to the class.
- The class level passes through as its canonical reference. The walk stops before the package, whose kind is unsupported. `canonicalReference` is typed as a string, and the model takes the string the API model supplies. For an instance method `getValue` on a class `Point`, the id is therefore the lowercased canonical reference of `Point`, whatever text the API model gives it, then `.(getvalue:instance)`.

## Model

| member | source | states |
|---|---|---|
| `Identifiers.Visit` | api/identifiers.ts:47-83 | Only a non-overloaded constructor moves the walk. It moves to its parent, the class. Every other item resumes from itself. |
| `Identifiers.Next` | api/identifiers.ts:84 | The walk continues exactly when the parent exists and its kind is not None, Package, Model or EntryPoint. The next item is then that parent, one level up. |
| `Identifiers.Walk` | api/identifiers.ts:44-84 | The walk emits at least one segment, and the first one is the starting item's own segment. |
| `Identifiers.Visited` | api/identifiers.ts:45-84 | The visited items start at the item itself, and the walk can continue from each of them without throwing. |
| `Identifiers.WalkStep` | api/identifiers.ts:46-84 | One loop iteration pushes the visited item's segment. What remains to push is the walk from the next item, or nothing when the loop ends. |
| `Identifiers.CanonicalId` | api/identifiers.ts:37-92 | The id contains no upper-case letter. |
| `Identifiers.ToId` | api/identifiers.ts:37-92 | The loop with the mid-iteration constructor step returns exactly `CanonicalId(item)`. That is "" for an unsupported kind, and otherwise the lowercased, `.`-joined, root-first segments. |
| `IdentifierProperties.CanonicalIdUnfold` | api/identifiers.ts:80-91 | The id of a supported item is the id of the next item and a dot (when there is a next item), followed by the item's own segment lowercased. |
| `IdentifierProperties.VariableId` | api/identifiers.ts:48-52 | A variable always ends its id with `(name:variable)` lowercased, whatever its other fields are. |
| `IdentifierProperties.FunctionId` | api/identifiers.ts:53-59 | A function with overload index 0 ends with `(name:function)`. Any other index ends with its own canonical reference. |
| `IdentifierProperties.MethodId` | api/identifiers.ts:60-67 | A method with overload index 0 ends with `(name:static)` or `(name:instance)`, as `isStatic` says. Any other index ends with its canonical reference. |
| `IdentifierProperties.ConstructorId` | api/identifiers.ts:68-77 | A constructor with overload index 0 ends with `(className:constructor)`, and the part before it is the id above the class. A constructor with any other index ends with its canonical reference, and the part before it continues at the class. |
| `IdentifierProperties.FallbackId` | api/identifiers.ts:80-83 | Every supported kind other than Variable, Function, Method and Constructor ends with its canonical reference. |
| `IdentifierProperties.UnsupportedId` | api/identifiers.ts:38-42 | Items of kind None, Package, Model or EntryPoint have the empty id. |
| `IdentifierProperties.CanonicalIdLowerFixpoint` | api/identifiers.ts:88-91 | Lowercasing an id again leaves it unchanged. |
| `IdentifierProperties.VisitedChain` | api/identifiers.ts:84 | After the first, every visited item is an ancestor of the one before it and of the starting item. None of them has an unsupported kind. |
| `IdentifierProperties.WalkVisits` | api/identifiers.ts:46-83 | There is exactly one segment per visited item, in visiting order. |
| `IdentifierProperties.ConstructorSkipsClass` | api/identifiers.ts:72-77 | A non-overloaded constructor's class is never visited. The next item visited, if any, is the class's parent. |
| `Identifiers.ParameterId` | api/identifiers.ts:94-96 | A parameter id is lower case. It starts with the method's id, followed by a `.` and more text. |
| `IdentifierProperties.ParameterIdIsChildSegment` | api/identifiers.ts:94-96 | A parameter id is the lowercased join of the method's root-first segments plus `(name:parameter)`. |
| `IdentifierProperties.ParameterIdDeterminesName` | api/identifiers.ts:94-96 | Two parameter ids of one method are equal exactly when the lowercased parameter names are equal. |
| `Identifiers.SliceTo` | api/identifiers.ts:25 | `slice(0, n)` returns a prefix of the string: the first n characters when the string has n or more, and the whole string when it is shorter. |
| `Identifiers.Permalink` | api/identifiers.ts:20-26 | A permalink always ends with `-` and the lowercased display name. Given a hex digest, it is the first six digest characters, `-`, then that name. Its length is then 7 plus the display name's length, and it is lower case. |
| `Identifiers.DefaultPermalink` | api/identifiers.ts:20 | Without an explicit id, the permalink ends with the lowercased display name and hashes `CanonicalId(item)`. Given a hex digest, its first six characters are those of the digest of the item's id. |
| `IdentifierProperties.PermalinkParts` | api/identifiers.ts:20-25 | Two permalinks are equal exactly when their six-character hash prefixes are equal and their lowercased display names are equal. So the prefix depends only on the id and the suffix only on the display name. |
| `IdentifierProperties.DefaultPermalinkFromIdAndName` | api/identifiers.ts:20-25 | Items with the same id and the same lowercased display name get the same default permalink. |
| `JsStrings.LowerChar` | api/identifiers.ts:91 | An upper-case ASCII letter maps to the letter 32 code points above it, `'a'` for `'A'` through `'z'` for `'Z'`. Every other character is unchanged. No result is upper case. |
| `JsStrings.Lower` | api/identifiers.ts:91 | `toLowerCase` keeps the length and leaves no upper-case ASCII letter. |
| `JsStrings.LowerMapsEachChar` | api/identifiers.ts:91 | Each character of the lowercased string is `LowerChar` of the character at the same position, so `A`–`Z` become `a`–`z` and all other characters are kept. |
| `JsStrings.LowerConcat` | api/identifiers.ts:91 | Lowercasing a concatenation is the concatenation of the lowercased parts. |
| `JsStrings.LowerIdempotent` | api/identifiers.ts:91 | Lowercasing twice is the same as lowercasing once. |
| `JsStrings.Reverse` | api/identifiers.ts:89 | `reverse` puts the element from position `n - 1 - i` at position `i`. |
| `JsStrings.Join` | api/identifiers.ts:90 | `join` of no parts is empty. Otherwise the length is the total length of the parts plus one separator per pair of neighbours. |
| `JsStrings.JoinEnds` | api/identifiers.ts:90 | The joined string starts with the first part, then the separator when there is a second part, and ends with the last part. |
| `JsStrings.JoinSnoc` | api/identifiers.ts:90 | Joining one more part appends the separator and that part. |
| `JsStrings.LowerJoinSnoc` | api/identifiers.ts:88-91 | Joining one more part with `.` and lowercasing appends `.` and the lowercased part. |

## Left out

- The SHA-1 digest computed with Node's `crypto` module is a parameter `digest: string -> string`. The digest algorithm itself is not modelled.
- `Permalink` models `slice(0, 6)` with JavaScript's clamping, so it needs no precondition. The hex-digest facts in `Identifiers.Permalink`'s conditional ensures and in `IdentifierProperties.PermalinkParts`' requires assume the digest is at least six lowercase hex characters. A SHA-1 hex digest is 40.
- `JsStrings.Lower`: only ASCII letters are lowercased. JavaScript's `toLowerCase` applies full Unicode case mapping, which is not modelled.
- Cyclic parent chains cannot be expressed. The source has no cycle detection and would loop on one. Items are finite values here.
- `Identifiers.ToId`: it requires `WellFormed`, meaning every non-overloaded constructor the walk meets has a parent. The source reads `klass.name` on a missing parent and throws a TypeError, so that throw is not modelled as a result.
- `Identifiers.ParameterId` accepts only function-like kinds (Method, MethodSignature, Function, ConstructSignature, Constructor), as the TypeScript parameter type does.
- `canonicalReference` is a string the API model supplies. How the API model produces that text is not modelled.
- The API item model beyond the fields read here (kind, name, display name, canonical reference, overload index, static flag, parent) is not modelled.
- api/custom-blocks.ts is not part of this model. It registers custom tags by patching a third-party configuration object and has no logic of its own.
- components/Navigation.tsx is not part of this model. It is static menu markup chosen by a build flag.
- api/__tests__/TSDocReactEmitter.test.ts is not part of this model. It holds rendering snapshot tests for a module that is not modelled.

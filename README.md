# namespace — a verified model of the namespaced-key codec

The Go package `namespace` (Golang-Tools) builds hierarchical key names for
key-value stores. A namespace is an ordered list of segments (`NameSpcae`).
Together with a key and a configuration it is encoded into one full name:

    prefix + join(segments, namespace delimiter) + key delimiter + key

`FromFullName` decodes a full name back into a namespace and a key, or
reports one of two sentinel errors. The configuration (`Options`) is a
package-level default (`defaultOptions`). Functional options (`WithPrefix`,
`WithNamespaceDelimiter`, `WithKeyDelimiter`, `WithRedisStyle`,
`WithEtcdStyle`, `WithRandomKeyGen`) adjust it, either for one call or
permanently through `SetDefaultOptions`. `ReSetDefaultOptions` puts it back.

The project has five modules:

- `GoStrings` (`go_strings.dfy`) models Go's `strings.Index`, `HasPrefix`, `Split` and `Join` for a non-empty separator. Its main result is the exact condition under which `Split` undoes `Join`.
- `NamespaceOptions` (`options.dfy`) holds the `Options` record, the built-in and reset defaults, and the options as a datatype. Applying an option list runs the options left to right on a copy. It proves which fields each option writes, that the last writer wins, and how the reset default compares with the initial one.
- `Namespace` (`namespace.dfy`) holds `ToString`, `FullName`, `RandomKey` and `FromFullName` as functions of a resolved configuration. It proves that decoding is sound, gives an exact characterisation of each error, and states the round trip as an if-and-only-if.
- `NamespaceDefaults` (`defaults.dfy`) is a class holding the mutable package default. It has the set and reset operations and the per-call entry points, which copy the default and apply the call's options in a loop.
- `NamespaceExamples` (`examples.dfy`) restates the cases of `namespace_test.go` as lemmas and methods. It also proves that segments free of the delimiter can still fail to round-trip.

### Behaviour worth knowing

- A full name that lacks the configured prefix is rejected with `ErrNamespaceFormatNotMatch` (namespace.go:127-128), the same error as a name with too many key delimiters. `FromFullNameErrors` and `FromFullNameStripsPrefix` state this.
- `ReSetDefaultOptions` (namespace.go:174-179) writes Go's zero value into `RandomKeyGen` instead of naming `idgener.IDGEN_UUIDV4`, the default given at namespace.go:20 and in the comment at namespace.go:14. Whether the two are the same algorithm depends on idgener's numbering, which is not part of this model. The model keeps them apart (`ZeroAlgorithm` and `UuidV4`), so `ResetOptions` differs from `InitialOptions` in that field, and `ResetDiffersOnlyInAlgorithm` says when this difference survives later options.
- Encoding then decoding does not always give back the namespace and key, even when there is at least one segment and no segment or key contains a delimiter. With a delimiter such as `"::"`, a segment ending in `":"` creates a match across the joint: the segment's ending followed by the delimiter holds an occurrence that starts inside the segment. With the default `"::"`, `["a:", "b"]` and key `"k"` encode to `"a:::b::k"`, which decodes to `["a", ":b"]` and `"k"`. This is shown by `StraddlingDelimiterEncodes` and `StraddlingDelimiterDecodes`. `FullNameRoundTrip` gives the exact condition (`RoundTrips`). `RoundTripWithoutDelimiterChars` gives a simple sufficient one: at least one segment, no segment or key shares a character with the delimiters, and, when the two delimiters differ, they share no character. Without the last condition the namespace delimiter `"::"` and key delimiter `":"` encode `["a", "b"]` and `"c"` to `"a::b:c"`, which splits into four parts and gives `ErrNamespaceFormatNotMatch`.

## Model

| member | source | states |
|---|---|---|
| GoStrings.Join | namespace.go:70 | Go's `strings.Join`; what it means is stated by `SplitJoin` (splitting the join gives the parts back exactly when they split back) and `JoinAppend` (one more part adds the separator and that part) |
| GoStrings.HasPrefix | namespace.go:127 | Go's `strings.HasPrefix`: the string is at least as long as the prefix and starts with it |
| GoStrings.Index | namespace.go:132 | the result is -1 exactly when the separator does not occur; otherwise it is an occurrence with none before it |
| GoStrings.Split | namespace.go:132 | at least one part; joining the parts with the separator gives back the input; a single part exactly when the separator is absent |
| GoStrings.SplitJoin | namespace.go:155 | splitting a join returns its parts if and only if every part but the last is cut off cleanly by the separator and the last does not contain it |
| GoStrings.SplitAfterPart | namespace.go:132 | splitting `p + sep + rest` cuts off `p` first exactly when `p` is clean |
| GoStrings.IndexAfterPart | namespace.go:132 | the first separator in `p + sep + rest` is the one after `p` exactly when `p` is clean |
| GoStrings.SplitPieces | namespace.go:132 | pieces that share no character with the separator are split back out of their join, exactly and in order |
| GoStrings.SplitFree | namespace.go:136-139 | a string without the separator splits into itself alone |
| GoStrings.JoinAppend | namespace.go:70 | joining one more part appends the separator and that part |
| GoStrings.JoinAvoids | namespace.go:70 | a join of parts and a separator that avoid some characters avoids them too |
| GoStrings.AvoidsIsClean | namespace.go:132 | a string sharing no character with the separator is clean and separator-free |
| NamespaceOptions.Apply | namespace.go:23-186 | each option (the closures at lines 23-60 and `WithRandomKeyGen` at 181-186) writes only the fields it owns, with the value it carries; the redis preset writes "::", "::" and ""; the etcd preset writes "/", "/" and "/" |
| NamespaceOptions.ApplyAll | namespace.go:68-69 | a field that no option in the list owns keeps its value from the starting configuration |
| NamespaceOptions.OwnedFieldIgnoresInput | namespace.go:23-60 | what an option writes into a field it owns does not depend on the configuration it runs on |
| NamespaceOptions.ApplyAllAppend | namespace.go:69 | options apply in order: applying `fs + gs` is applying `fs`, then `gs` |
| NamespaceOptions.LastWriterWins | namespace.go:69 | the last option that owns a field decides that field |
| NamespaceOptions.ApplyAllKeepsAgreement | namespace.go:69 | two configurations that agree on a field still agree after the same options |
| NamespaceOptions.OwnedFieldForgetsStart | namespace.go:69 | a field written by some option of the list ends the same whatever the starting configuration |
| NamespaceOptions.ResetDiffersOnlyInAlgorithm | namespace.go:174-179 | after any options, the reset and the initial default agree on prefix and both delimiters; they agree on the algorithm if and only if an option sets it |
| NamespaceOptions.ApplyAllKeepsDelimiters | namespace.go:30-42 | options that set non-empty delimiters keep both delimiters non-empty |
| Namespace.ToString | namespace.go:67-78 | the prefix followed directly by the segments joined with the namespace delimiter, with or without a prefix |
| Namespace.FullName | namespace.go:83-95 | the namespace string, then the key delimiter (also for an empty namespace), then the key |
| Namespace.RandomKey | namespace.go:99-115 | on success, the full name with the generated identifier as key and no error; on failure, the empty string and the generator's error; a success starts with the namespace string and the key delimiter |
| Namespace.PrefixMatches | namespace.go:126-127 | the prefix check passes when no prefix is configured or the name starts with it; `FromFullNameStripsPrefix` states what follows from it |
| NamespaceOptions.InitialOptions | namespace.go:17-21 | the default at load time: no prefix, both delimiters "::", UUID-v4 |
| NamespaceOptions.ResetOptions | namespace.go:175-178 | the default after a reset: no prefix, both delimiters "::", the zero algorithm; `ResetDiffersOnlyInAlgorithm` compares it with the initial default |
| Namespace.Unprefixed | namespace.go:130 | the input is the prefix followed by what is left |
| Namespace.FromFullName | namespace.go:123-165 | a success has at least one segment; an error has a nil namespace; the format error also has an empty key |
| Namespace.FromRest | namespace.go:132-164 | the same three facts for the decoding that follows the prefix check |
| Namespace.FromFullNameSound | namespace.go:123-165 | whatever is decoded without error encodes back to exactly the input |
| Namespace.FromRestSound | namespace.go:132-164 | a successful decoding after the prefix joins back to the text it came from |
| Namespace.FromFullNameErrors | namespace.go:123-165 | `ErrKeyNotHaveNamespace` exactly when the prefix matches and the rest has no key delimiter, with that rest as key; `ErrNamespaceFormatNotMatch` exactly when the prefix is missing, or the delimiters differ and the key delimiter occurs at least twice without overlap in the rest (`TwoKeyDelimiters`) |
| Namespace.FromFullNameStripsPrefix | namespace.go:126-131 | every name that fails the prefix check gives the format error with nil namespace and empty key; the prefix followed by any text decodes exactly as that text does without a prefix |
| Namespace.FullNameRoundTrip | namespace.go:83-165 | decoding an encoded name gives back the namespace and key if and only if `RoundTrips` holds: at least one segment, and every split decoding performs gives back the pieces encoding joined (segments and key on the shared delimiter; or the joined namespace and key on the key delimiter, then the segments on the namespace delimiter) |
| Namespace.DecodeFullName | namespace.go:126-131 | decoding an encoded name passes the prefix check and decodes the unprefixed text |
| Namespace.RoundTripSameDelimiter | namespace.go:134-146 | with equal delimiters, splittable segments and a free key decode back |
| Namespace.SameDelimiterParts | namespace.go:140-145 | with equal delimiters, a success lists the split parts: the namespace followed by the key |
| Namespace.RoundTripDifferentDelimiters | namespace.go:147-164 | with different delimiters, a join that splits back on both delimiters decodes back |
| Namespace.DifferentDelimitersParts | namespace.go:153-158 | with different delimiters, a success came from exactly two parts, the first split on the namespace delimiter |
| Namespace.EmptyNamespaceRoundTrip | namespace.go:134-146 | an empty namespace comes back as one empty segment, not as no namespace |
| Namespace.RoundTripWithoutDelimiterChars | namespace.go:83-165 | at least one segment, and segments and key sharing no character with the delimiters (nor the namespace delimiter with the key delimiter), is enough for the round trip |
| Namespace.CodecIgnoresAlgorithm | namespace.go:67-165 | encoding and decoding read only the prefix and the delimiters, never the random-key algorithm |
| NamespaceDefaults.Defaults.constructor | namespace.go:17-21 | the default at load time: no prefix, "::" and "::", UUID-v4 |
| NamespaceDefaults.Defaults.SetDefaultOptions | namespace.go:169-171 | the stored default becomes the old default with the options applied in order |
| NamespaceDefaults.Defaults.ReSetDefaultOptions | namespace.go:174-179 | the stored default becomes no prefix, "::" and "::", with the zero algorithm |
| NamespaceDefaults.Defaults.Resolve | namespace.go:68-69 | a call's configuration is the stored default with the call's options applied; the default itself is unchanged |
| NamespaceDefaults.Defaults.ToString | namespace.go:67-78 | the codec's `ToString` under the resolved configuration |
| NamespaceDefaults.Defaults.FullName | namespace.go:83-95 | the codec's `FullName` under the resolved configuration |
| NamespaceDefaults.Defaults.RandomKey | namespace.go:99-115 | the codec's `RandomKey` under the resolved configuration |
| NamespaceDefaults.Defaults.FromFullName | namespace.go:123-165 | the codec's `FromFullName` under the resolved configuration |
| NamespaceExamples.ToStringExamples | namespace_test.go:10-21 | "a::b::c" by default and "a??b??c" with namespace delimiter "??" |
| NamespaceExamples.ToStringWithPrefixExample | namespace_test.go:106-111 | "//a::b::c" with prefix "//" |
| NamespaceExamples.FullNameExamples | namespace_test.go:23-34 | "a::b::c::q" by default and "a::b::c-q" with key delimiter "-" |
| NamespaceExamples.FullNameWithPrefixExample | namespace_test.go:113-118 | "//a::b::c-q" with key delimiter "-" and prefix "//" |
| NamespaceExamples.FullNameRedisStyleExample | namespace_test.go:120-125 | "a::b::c::q" under the redis preset |
| NamespaceExamples.FullNameEtcdStyleExample | namespace_test.go:136-141 | "/a/b/c/q" under the etcd preset |
| NamespaceExamples.DecodeSameDelimiterExample | namespace_test.go:36-44 | "a::b::c" decodes to ["a", "b"] and "c" |
| NamespaceExamples.DecodeNoNamespaceExample | namespace_test.go:45-52 | "c" gives `ErrKeyNotHaveNamespace` with key "c" |
| NamespaceExamples.DecodeDelimiterOptionExample | namespace_test.go:54-62 | "a:b::c" with ":" and "::" decodes to ["a", "b"] and "c" |
| NamespaceExamples.DecodeNoKeyDelimiterExample | namespace_test.go:64-74 | "abc" with ":" and "::" gives `ErrKeyNotHaveNamespace` with key "abc" |
| NamespaceExamples.DecodeTooManyPartsExample | namespace_test.go:76-84 | "a::b:c:d" with key delimiter ":" gives `ErrNamespaceFormatNotMatch` |
| NamespaceExamples.DecodeMissingPrefixExample | namespace_test.go:86-94 | "a::b::c:d" with prefix "//" gives `ErrNamespaceFormatNotMatch` |
| NamespaceExamples.DecodePrefixThenTooManyPartsExample | namespace_test.go:96-104 | "//a::b::c:d" passes the prefix check and still gives `ErrNamespaceFormatNotMatch` |
| NamespaceExamples.DecodeRedisStyleExample | namespace_test.go:126-134 | "a::b::c::d" under the redis preset decodes to ["a", "b", "c"] and "d" |
| NamespaceExamples.DecodeEtcdStyleExample | namespace_test.go:142-150 | "/a/b/c/d" under the etcd preset decodes to ["a", "b", "c"] and "d" |
| NamespaceExamples.DecodeAfterResetExample | namespace_test.go:161-166 | under the reset default "/a/b/c/d" gives `ErrKeyNotHaveNamespace` with the whole name as key |
| NamespaceExamples.SetThenResetScenario | namespace_test.go:152-167 | with the etcd preset stored, "/a/b/c/d" decodes to ["a", "b", "c"] and "d"; after a reset it has no namespace |
| NamespaceExamples.RandomKeyScenario | namespace_test.go:169-184 | with a generator that succeeds for the zero algorithm, random keys start with "/a/b/c/" under the stored etcd preset and with "a::b::c::" under the stored redis preset |
| NamespaceExamples.StraddlingDelimiterEncodes | namespace.go:83-95 | ["a:", "b"] with key "k" encodes to "a:::b::k" under the default |
| NamespaceExamples.StraddlingDelimiterDecodes | namespace.go:123-165 | "a:::b::k" decodes to ["a", ":b"] and "k", so those segments do not round-trip |

## Left out

- `idgener.Next` is an external generator. It is the parameter `next` of `RandomKey`, and its identifiers and errors are not modelled beyond success or failure. `next` is a fixed function of the algorithm, so two calls with the same algorithm (as the two `RandomKey` calls of `RandomKeyScenario`) get the same identifier, while `idgener.Next` gives a fresh one on each call. No stated property depends on identifiers differing.
- `idgener.IDGENAlgorithm` numbering is not part of this model. Go's zero value and UUID-v4 are kept as distinct values.
- NamespaceOptions.ResetDiffersOnlyInAlgorithm: its "only if" half, that the reset and initial defaults differ in the algorithm when no option sets it, rests on keeping Go's zero value and UUID-v4 apart. If idgener numbers UUID-v4 as the zero value, the two defaults are equal and only the "if" half and the agreement on the other three fields remain.
- `optparams.GetOption` is not part of this model. It is modelled as running each option's closure on the configuration, in argument order.
- Namespace.FromFullName: requires both delimiters to be non-empty. Go's `strings.Split` with an empty separator splits into UTF-8 sequences, and that case is not modelled.
- NamespaceDefaults.Defaults.FromFullName: requires the resolved configuration to have non-empty delimiters, for the same reason.
- NamespaceExamples.RandomKeyScenario: requires the generator to succeed for the zero algorithm, the one the test asks for after the preceding reset. The test fails outright on a generator error, and whether the real generator accepts the zero algorithm is not visible here.
- Concurrent access to the package default is not modelled. The Go code has no synchronisation, and the model is sequential.
- A nil slice and an empty slice are not distinguished. Both are the empty sequence.
- Error message texts (exception.go:8 and exception.go:11) are not modelled. The two errors are datatype constructors.
- `strings.Builder` is not modelled. It is treated as plain string concatenation.
- Go strings are byte strings, and `len(opt.Prefix)` at namespace.go:130 counts bytes. The model's strings are sequences of characters. The two agree on valid UTF-8 text, and strings that are not valid UTF-8 cannot be represented in the model.
- A nil `*NameSpcae` receiver panics when it is dereferenced (namespace.go:70, 86, 102). The model's namespace is a value and cannot be nil, so this panic is not covered.

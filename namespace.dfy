/** The namespaced-key codec of namespace.go: a namespace (`NameSpcae`, an
    ordered list of segments) and a key are encoded into one full name, and a
    full name is decoded back. Every operation works on the configuration it
    is given, which is the stored default with the call's options applied. */
module Namespace {
  import opened GoStrings
  import opened NamespaceOptions

  datatype Option<T> = None | Some(value: T)

  /** The two sentinel errors of exception.go. */
  datatype Error = ErrKeyNotHaveNamespace | ErrNamespaceFormatNotMatch

  /** What `FromFullName` returns: Go's (namespace, key, error) triple.
      A nil namespace is the empty sequence. */
  datatype Decoded = Decoded(namespace: seq<string>, key: string, err: Option<Error>)

  /** An error reported by the external ID generator, passed on unchanged. */
  datatype GenError = GenError(message: string)

  /** What one call of the external ID generator gives back. */
  datatype GeneratorOutcome = Generated(id: string) | GenerationFailed(error: GenError)

  /** `NameSpcae.ToString`: the segments joined by the namespace delimiter,
      with the prefix (if any) directly in front and no separator added. */
  function ToString(ns: seq<string>, o: Options): (s: string)
    ensures s == o.prefix + Join(ns, o.namespaceDelimiter)
  {
    var namespaceStr := Join(ns, o.namespaceDelimiter);
    if o.prefix == "" then namespaceStr else o.prefix + namespaceStr
  }

  /** `NameSpcae.FullName`: the namespace string, then the key delimiter
      (also when the namespace is empty), then the key. */
  function FullName(ns: seq<string>, key: string, o: Options): (s: string)
    ensures s == ToString(ns, o) + o.keyDelimiter + key
  {
    var namespaceStr := Join(ns, o.namespaceDelimiter);
    (if o.prefix != "" then o.prefix else "") + namespaceStr + o.keyDelimiter + key
  }

  /** `NameSpcae.RandomKey`, where `next` stands for the external generator
      `idgener.Next`, consulted with the configured algorithm. On success the
      result is the full name with the generated key; on failure it is the
      empty string and the generator's error, unchanged. */
  function RandomKey(ns: seq<string>, o: Options, next: IdGenAlgorithm -> GeneratorOutcome)
    : (r: (string, Option<GenError>))
    ensures next(o.randomKeyGen).Generated? ==>
      r == (FullName(ns, next(o.randomKeyGen).id, o), None)
    ensures next(o.randomKeyGen).GenerationFailed? ==>
      r == ("", Some(next(o.randomKeyGen).error))
    ensures r.1 == None ==> HasPrefix(r.0, ToString(ns, o) + o.keyDelimiter)
  {
    var namespaceStr := Join(ns, o.namespaceDelimiter);
    match next(o.randomKeyGen)
    case GenerationFailed(err) => ("", Some(err))
    case Generated(randomKey) =>
      var name := (if o.prefix != "" then o.prefix else "") + namespaceStr + o.keyDelimiter + randomKey;
      assert name[..|ToString(ns, o) + o.keyDelimiter|] == ToString(ns, o) + o.keyDelimiter;
      (name, None)
  }

  /** The prefix check of `FromFullName` passes: no prefix is configured, or
      the input starts with it. */
  predicate PrefixMatches(fullname: string, o: Options) {
    o.prefix == "" || HasPrefix(fullname, o.prefix)
  }

  /** The input with exactly `len(prefix)` characters removed. */
  function Unprefixed(fullname: string, o: Options): (rest: string)
    requires PrefixMatches(fullname, o)
    ensures fullname == o.prefix + rest
  {
    if o.prefix != "" then fullname[|o.prefix|..] else fullname
  }

  /** `FromFullName`: the prefix check, then `FromRest` on what follows the
      prefix. A missing prefix is reported as `ErrNamespaceFormatNotMatch`. */
  function FromFullName(fullname: string, o: Options): (r: Decoded)
    requires ValidDelimiters(o)
    ensures r.err == None ==> |r.namespace| >= 1
    ensures r.err != None ==> r.namespace == []
    ensures r.err == Some(ErrNamespaceFormatNotMatch) ==> r.key == ""
  {
    if !PrefixMatches(fullname, o) then Decoded([], "", Some(ErrNamespaceFormatNotMatch))
    else FromRest(Unprefixed(fullname, o), o)
  }

  /** The part of `FromFullName` after the prefix: the rest is split on the
      key delimiter. With equal delimiters all parts but the last are the
      namespace; with different ones exactly two parts are expected and the
      first is split again on the namespace delimiter. */
  function FromRest(rest: string, o: Options): (r: Decoded)
    requires ValidDelimiters(o)
    ensures r.err == None ==> |r.namespace| >= 1
    ensures r.err != None ==> r.namespace == []
    ensures r.err == Some(ErrNamespaceFormatNotMatch) ==> r.key == ""
  {
    var nsinfo := Split(rest, o.keyDelimiter);
    var n := |nsinfo|;
    if o.keyDelimiter == o.namespaceDelimiter then
      if n == 1 then Decoded([], nsinfo[0], Some(ErrKeyNotHaveNamespace))
      else Decoded(nsinfo[..n - 1], nsinfo[n - 1], None)
    else
      if n == 1 then Decoded([], nsinfo[0], Some(ErrKeyNotHaveNamespace))
      else if n == 2 then Decoded(Split(nsinfo[0], o.namespaceDelimiter), nsinfo[1], None)
      else Decoded([], "", Some(ErrNamespaceFormatNotMatch))
  }

  /** Whatever decoding accepts, it reads correctly: encoding the decoded
      namespace and key under the same configuration gives back the input. */
  lemma FromFullNameSound(fullname: string, o: Options)
    requires ValidDelimiters(o)
    ensures FromFullName(fullname, o).err == None ==>
      FullName(FromFullName(fullname, o).namespace, FromFullName(fullname, o).key, o) == fullname
  {
    if PrefixMatches(fullname, o) {
      var rest := Unprefixed(fullname, o);
      var r := FromRest(rest, o);
      if r.err == None {
        FromRestSound(rest, o);
        var joined := Join(r.namespace, o.namespaceDelimiter);
        calc {
          FullName(r.namespace, r.key, o);
          ToString(r.namespace, o) + o.keyDelimiter + r.key;
          o.prefix + joined + o.keyDelimiter + r.key;
          { Associate(o.prefix, joined, o.keyDelimiter, r.key); }
          o.prefix + (joined + o.keyDelimiter + r.key);
        }
      }
    }
  }

  /** Regrouping a concatenation of four strings. */
  lemma Associate(a: string, b: string, c: string, d: string)
    ensures a + b + c + d == a + (b + c + d)
  {
  }

  /** `FromFullNameSound` for the part after the prefix. */
  lemma FromRestSound(rest: string, o: Options)
    requires ValidDelimiters(o) && FromRest(rest, o).err == None
    ensures Join(FromRest(rest, o).namespace, o.namespaceDelimiter) + o.keyDelimiter
      + FromRest(rest, o).key == rest
  {
    var kd, nd := o.keyDelimiter, o.namespaceDelimiter;
    var r := FromRest(rest, o);
    var nsinfo := Split(rest, kd);
    var n := |nsinfo|;
    if kd == nd {
      assert nsinfo == nsinfo[..n - 1] + [nsinfo[n - 1]];
      JoinAppend(nsinfo[..n - 1], nsinfo[n - 1], kd);
    } else {
      assert n == 2;
      assert Join(nsinfo, kd) == nsinfo[0] + kd + nsinfo[1];
    }
  }

  /** The key delimiter occurs at least twice, without overlap, in `s`. */
  predicate TwoKeyDelimiters(s: string, kd: string)
    requires |kd| > 0
  {
    var i := Index(s, kd);
    i >= 0 && !Free(s[i + |kd|..], kd)
  }

  /** When each error is reported. `ErrKeyNotHaveNamespace`: the prefix check
      passes and the rest has no key delimiter; the whole rest is returned
      as the key. `ErrNamespaceFormatNotMatch`: the prefix check fails, or the
      delimiters differ and the key delimiter occurs more than once. */
  lemma FromFullNameErrors(fullname: string, o: Options)
    requires ValidDelimiters(o)
    ensures FromFullName(fullname, o).err == Some(ErrKeyNotHaveNamespace) <==>
      PrefixMatches(fullname, o) && Free(Unprefixed(fullname, o), o.keyDelimiter)
    ensures FromFullName(fullname, o).err == Some(ErrKeyNotHaveNamespace) ==>
      FromFullName(fullname, o).key == Unprefixed(fullname, o)
    ensures FromFullName(fullname, o).err == Some(ErrNamespaceFormatNotMatch) <==>
      !PrefixMatches(fullname, o) ||
      (o.keyDelimiter != o.namespaceDelimiter && TwoKeyDelimiters(Unprefixed(fullname, o), o.keyDelimiter))
  {
    if PrefixMatches(fullname, o) {
      var rest := Unprefixed(fullname, o);
      var kd := o.keyDelimiter;
      var nsinfo := Split(rest, kd);
      if Free(rest, kd) {
        SplitFree(rest, kd);
      } else {
        var i := Index(rest, kd);
        assert nsinfo == [rest[..i]] + Split(rest[i + |kd|..], kd);
      }
    }
  }

  /** The prefix is all that decoding looks for before the split: a name
      without it is rejected outright, and behind it any text decodes exactly
      as it would on its own. */
  lemma FromFullNameStripsPrefix(o: Options)
    requires ValidDelimiters(o)
    ensures forall s :: !PrefixMatches(s, o) ==>
      FromFullName(s, o) == Decoded([], "", Some(ErrNamespaceFormatNotMatch))
    ensures forall rest :: FromFullName(o.prefix + rest, o) == FromRest(rest, o)
  {
    forall rest ensures FromFullName(o.prefix + rest, o) == FromRest(rest, o) {
      var s := o.prefix + rest;
      assert s[..|o.prefix|] == o.prefix;
      var u := Unprefixed(s, o);
      assert |u| == |rest|;
      assert forall i :: 0 <= i < |rest| ==> u[i] == s[|o.prefix| + i] == rest[i];
      assert u == rest;
    }
  }

  /** The precise condition for a namespace and key to survive encoding and
      decoding under `o`: at least one segment, and every split that decoding
      performs gives back exactly the pieces encoding joined. */
  ghost predicate RoundTrips(ns: seq<string>, key: string, o: Options) {
    |ns| >= 1 &&
    if o.keyDelimiter == o.namespaceDelimiter then
      SplitsBack(ns + [key], o.keyDelimiter)
    else
      SplitsBack([Join(ns, o.namespaceDelimiter), key], o.keyDelimiter) &&
      SplitsBack(ns, o.namespaceDelimiter)
  }

  /** Round trip: decoding an encoded name gives back the namespace and the
      key, without error, if and only if `RoundTrips` holds. The prefix never
      matters. */
  lemma FullNameRoundTrip(ns: seq<string>, key: string, o: Options)
    requires ValidDelimiters(o)
    ensures FromFullName(FullName(ns, key, o), o) == Decoded(ns, key, None) <==> RoundTrips(ns, key, o)
  {
    DecodeFullName(ns, key, o);
    if |ns| >= 1 {
      if o.keyDelimiter == o.namespaceDelimiter {
        RoundTripSameDelimiter(ns, key, o);
      } else {
        RoundTripDifferentDelimiters(ns, key, o);
      }
    }
  }

  /** The round trip when both delimiters are the same: the whole name is one
      join of the segments and the key. */
  lemma RoundTripSameDelimiter(ns: seq<string>, key: string, o: Options)
    requires ValidDelimiters(o) && |ns| >= 1 && o.keyDelimiter == o.namespaceDelimiter
    ensures FromRest(Join(ns, o.namespaceDelimiter) + o.keyDelimiter + key, o) == Decoded(ns, key, None)
      <==> SplitsBack(ns + [key], o.keyDelimiter)
  {
    var d := o.keyDelimiter;
    var parts := ns + [key];
    var rest := Join(ns, d) + d + key;
    JoinAppend(ns, key, d);
    SplitJoin(parts, d);
    if SplitsBack(parts, d) {
      assert parts[..|parts| - 1] == ns;
      FromRestParts(rest, o);
    }
    if FromRest(rest, o) == Decoded(ns, key, None) {
      SameDelimiterParts(rest, o);
    }
  }

  /** With equal delimiters, a successful decoding lists every part of the
      split: the namespace, then the key. */
  lemma SameDelimiterParts(rest: string, o: Options)
    requires ValidDelimiters(o) && o.keyDelimiter == o.namespaceDelimiter
    requires FromRest(rest, o).err == None
    ensures Split(rest, o.keyDelimiter) == FromRest(rest, o).namespace + [FromRest(rest, o).key]
  {
    var nsinfo := Split(rest, o.keyDelimiter);
    var n := |nsinfo|;
    FromRestParts(rest, o);
    var r := FromRest(rest, o);
    assert n > 1;
    var parts := r.namespace + [r.key];
    forall i | 0 <= i < n ensures parts[i] == nsinfo[i] {
      if i < n - 1 { assert nsinfo[..n - 1][i] == nsinfo[i]; }
    }
  }

  /** The round trip when the delimiters differ: the name is the joined
      namespace and the key around one key delimiter. */
  lemma RoundTripDifferentDelimiters(ns: seq<string>, key: string, o: Options)
    requires ValidDelimiters(o) && |ns| >= 1 && o.keyDelimiter != o.namespaceDelimiter
    ensures FromRest(Join(ns, o.namespaceDelimiter) + o.keyDelimiter + key, o) == Decoded(ns, key, None)
      <==> (SplitsBack([Join(ns, o.namespaceDelimiter), key], o.keyDelimiter)
        && SplitsBack(ns, o.namespaceDelimiter))
  {
    var kd, nd := o.keyDelimiter, o.namespaceDelimiter;
    var joined := Join(ns, nd);
    var rest := joined + kd + key;
    assert Join([joined, key], kd) == rest;
    SplitJoin([joined, key], kd);
    SplitJoin(ns, nd);
    FromRestParts(rest, o);
    if FromRest(rest, o) == Decoded(ns, key, None) {
      DifferentDelimitersParts(rest, o);
      var nsinfo := Split(rest, kd);
      assert Join(nsinfo, kd) == nsinfo[0] + kd + nsinfo[1];
      assert nsinfo[0] == joined;
    }
  }

  /** With different delimiters, a successful decoding came from a split
      into exactly two parts, the second of which is the key. */
  lemma DifferentDelimitersParts(rest: string, o: Options)
    requires ValidDelimiters(o) && o.keyDelimiter != o.namespaceDelimiter
    requires FromRest(rest, o).err == None
    ensures var nsinfo := Split(rest, o.keyDelimiter);
      |nsinfo| == 2 && nsinfo == [nsinfo[0], FromRest(rest, o).key]
      && FromRest(rest, o).namespace == Split(nsinfo[0], o.namespaceDelimiter)
  {
    FromRestParts(rest, o);
  }

  /** How `FromRest` reads the parts of the split on the key delimiter. */
  lemma FromRestParts(rest: string, o: Options)
    requires ValidDelimiters(o)
    ensures var nsinfo := Split(rest, o.keyDelimiter);
      var r := FromRest(rest, o);
      && (|nsinfo| == 1 ==> r == Decoded([], nsinfo[0], Some(ErrKeyNotHaveNamespace)))
      && (o.keyDelimiter == o.namespaceDelimiter && |nsinfo| > 1 ==>
            r == Decoded(nsinfo[..|nsinfo| - 1], nsinfo[|nsinfo| - 1], None))
      && (o.keyDelimiter != o.namespaceDelimiter && |nsinfo| == 2 ==>
            r == Decoded(Split(nsinfo[0], o.namespaceDelimiter), nsinfo[1], None))
      && (o.keyDelimiter != o.namespaceDelimiter && |nsinfo| > 2 ==>
            r == Decoded([], "", Some(ErrNamespaceFormatNotMatch)))
  {
  }

  /** Decoding an encoded name passes the prefix check and decodes what
      encoding put after the prefix. */
  lemma DecodeFullName(ns: seq<string>, key: string, o: Options)
    requires ValidDelimiters(o)
    ensures FromFullName(FullName(ns, key, o), o)
      == FromRest(Join(ns, o.namespaceDelimiter) + o.keyDelimiter + key, o)
  {
    var full := FullName(ns, key, o);
    var rest := Join(ns, o.namespaceDelimiter) + o.keyDelimiter + key;
    Associate(o.prefix, Join(ns, o.namespaceDelimiter), o.keyDelimiter, key);
    assert full == o.prefix + rest;
    assert full[..|o.prefix|] == o.prefix;
    assert Unprefixed(full, o) == rest;
  }

  /** An empty namespace is not recovered: it comes back as one empty
      segment, provided the key has no key delimiter. */
  lemma EmptyNamespaceRoundTrip(key: string, o: Options)
    requires ValidDelimiters(o) && Free(key, o.keyDelimiter)
    ensures FromFullName(FullName([], key, o), o) == Decoded([""], key, None)
  {
    var kd := o.keyDelimiter;
    DecodeFullName([], key, o);
    assert "" + kd + key == Join(["", key], kd);
    assert Clean("", kd);
    SplitJoin(["", key], kd);
    assert Free("", o.namespaceDelimiter);
    SplitFree("", o.namespaceDelimiter);
  }

  /** A simple sufficient condition for the round trip: at least one segment,
      no segment and not the key contains a character of either delimiter,
      and, when the delimiters differ, they share no character. */
  lemma RoundTripWithoutDelimiterChars(ns: seq<string>, key: string, o: Options)
    requires ValidDelimiters(o) && |ns| >= 1
    requires forall i :: 0 <= i < |ns| ==>
      Avoids(ns[i], o.namespaceDelimiter) && Avoids(ns[i], o.keyDelimiter)
    requires Avoids(key, o.keyDelimiter)
    requires o.keyDelimiter != o.namespaceDelimiter ==> Avoids(o.namespaceDelimiter, o.keyDelimiter)
    ensures FromFullName(FullName(ns, key, o), o) == Decoded(ns, key, None)
  {
    var kd, nd := o.keyDelimiter, o.namespaceDelimiter;
    forall i | 0 <= i < |ns| ensures Clean(ns[i], kd) && Free(ns[i], kd)
      && Clean(ns[i], nd) && Free(ns[i], nd) {
      AvoidsIsClean(ns[i], kd);
      AvoidsIsClean(ns[i], nd);
    }
    AvoidsIsClean(key, kd);
    if kd == nd {
      var parts := ns + [key];
      forall i | 0 <= i < |parts| - 1 ensures Clean(parts[i], kd) {
        assert parts[i] == ns[i];
      }
      assert SplitsBack(parts, kd);
    } else {
      JoinAvoids(ns, nd, kd);
      AvoidsIsClean(Join(ns, nd), kd);
      assert SplitsBack([Join(ns, nd), key], kd);
      assert SplitsBack(ns, nd);
    }
    FullNameRoundTrip(ns, key, o);
  }

  /** Encoding and decoding read the prefix and the two delimiters only:
      configurations that differ in the random-key algorithm alone give the
      same names and the same decodings. */
  lemma CodecIgnoresAlgorithm(a: Options, b: Options)
    requires a.prefix == b.prefix && a.namespaceDelimiter == b.namespaceDelimiter
    requires a.keyDelimiter == b.keyDelimiter
    ensures forall ns :: ToString(ns, a) == ToString(ns, b)
    ensures forall ns, key :: FullName(ns, key, a) == FullName(ns, key, b)
    ensures ValidDelimiters(a) ==> forall s :: FromFullName(s, a) == FromFullName(s, b)
  {
    assert a == b.(randomKeyGen := a.randomKeyGen);
  }
}

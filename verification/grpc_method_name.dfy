/** The method-name check of the gRPC server instrumentation: a full method
    path such as `/pkg.Service/Method` is reduced to its last segment before
    it is matched against the user's ignore list. */
module GrpcMethodName {
  import opened Wrappers

  const SEPARATOR: char := '/'

  /** JavaScript's `String.prototype.split` with a one-character separator:
      the empty string splits into one empty piece, and a separator at either
      end yields an empty piece there. */
  function Split(s: string, sep: char): (parts: seq<string>)
    ensures |parts| >= 1
    decreases |s|
  {
    if |s| == 0 then [""]
    else
      var rest := Split(s[1..], sep);
      if s[0] == sep then [""] + rest else [[s[0]] + rest[0]] + rest[1..]
  }

  /** The inverse of `Split`: the pieces glued back with the separator. */
  function Join(parts: seq<string>, sep: char): string
    requires |parts| >= 1
    decreases |parts|
  {
    if |parts| == 1 then parts[0] else parts[0] + [sep] + Join(parts[1..], sep)
  }

  function Last(parts: seq<string>): string
    requires |parts| >= 1
  {
    parts[|parts| - 1]
  }

  /** Splitting loses nothing: gluing the pieces back gives the input. */
  lemma {:induction false} SplitJoin(s: string, sep: char)
    ensures Join(Split(s, sep), sep) == s
    decreases |s|
  {
    if |s| > 0 {
      var rest := Split(s[1..], sep);
      SplitJoin(s[1..], sep);
      if s[0] == sep {
        assert Split(s, sep)[1..] == rest;
      } else {
        var parts := Split(s, sep);
        if |rest| > 1 {
          assert parts[1..] == rest[1..];
          assert Join(rest, sep) == rest[0] + [sep] + Join(rest[1..], sep);
        }
      }
    }
  }

  /** No piece contains the separator. */
  lemma {:induction false} SplitPiecesSeparatorFree(s: string, sep: char)
    ensures forall i :: 0 <= i < |Split(s, sep)| ==> sep !in Split(s, sep)[i]
    decreases |s|
  {
    if |s| > 0 {
      SplitPiecesSeparatorFree(s[1..], sep);
      var rest := Split(s[1..], sep);
      var parts := Split(s, sep);
      if s[0] != sep {
        assert sep !in rest[0];
        forall i | 0 <= i < |parts|
          ensures sep !in parts[i]
        {
          if i > 0 {
            assert parts[i] == rest[i];
          }
        }
      }
    }
  }

  lemma {:induction false} SplitWithoutSeparator(t: string, sep: char)
    requires sep !in t
    ensures Split(t, sep) == [t]
    decreases |t|
  {
    if |t| > 0 {
      assert sep !in t[1..];
      SplitWithoutSeparator(t[1..], sep);
      assert [t[0]] + t[1..] == t;
    }
  }

  lemma {:induction false} SplitWithSeparator(s: string, sep: char)
    requires sep in s
    ensures |Split(s, sep)| >= 2
    decreases |s|
  {
    if s[0] != sep {
      assert sep in s[1..];
      SplitWithSeparator(s[1..], sep);
    }
  }

  /** The last piece only depends on what follows the final separator. */
  lemma {:induction false} LastAfterSeparator(a: string, t: string, sep: char)
    ensures Last(Split(a + [sep] + t, sep)) == Last(Split(t, sep))
    decreases |a|
  {
    var s := a + [sep] + t;
    if |a| == 0 {
      assert s == [sep] + t;
      assert s[1..] == t;
    } else {
      var tail := a[1..] + [sep] + t;
      assert s[1..] == tail;
      assert s[0] == a[0];
      LastAfterSeparator(a[1..], t, sep);
      if a[0] != sep {
        assert sep in tail by { assert tail[|a| - 1] == sep; }
        SplitWithSeparator(tail, sep);
      }
    }
  }

  /** `parsedName[parsedName.length - 1] || methodName`: the last
      `/`-separated segment of the name, or the whole name when that segment
      is empty. */
  function ParsedName(methodName: string): string {
    var last := Last(Split(methodName, SEPARATOR));
    if last != "" then last else methodName
  }

  /** Scans back from the end to the last separator. */
  method ParseMethodName(methodName: string) returns (name: string)
    ensures name == ParsedName(methodName)
    ensures SEPARATOR !in name || name == methodName
    ensures SEPARATOR !in methodName ==> name == methodName
    ensures exists k :: 0 <= k <= |methodName| && name == methodName[k..]
  {
    var i := |methodName|;
    while i > 0 && methodName[i - 1] != SEPARATOR
      invariant 0 <= i <= |methodName|
      invariant SEPARATOR !in methodName[i..]
      decreases i
    {
      i := i - 1;
    }
    var last := methodName[i..];
    assert Last(Split(methodName, SEPARATOR)) == last by {
      if i == 0 {
        assert last == methodName;
        SplitWithoutSeparator(methodName, SEPARATOR);
      } else {
        assert methodName == methodName[..i - 1] + [SEPARATOR] + last;
        LastAfterSeparator(methodName[..i - 1], last, SEPARATOR);
        SplitWithoutSeparator(last, SEPARATOR);
      }
    }
    if last != "" {
      name := last;
    } else {
      name := methodName;
      assert name == methodName[0..];
    }
  }

  /** A matcher from the user's ignore list (string, pattern or predicate);
      its content is only seen by the external matching function. */
  datatype IgnoreMatcher = IgnoreMatcher(id: nat)

  /** Request metadata; `shouldNotTraceServerCall` never reads it. */
  datatype Metadata = Metadata(entries: map<string, seq<string>>)

  /** `shouldNotTraceServerCall`: the external `isIgnored` (the library's
      `_methodIsIgnored`) is asked about the parsed name, never about the
      metadata. An absent ignore list (`undefined`) is passed on as it is. */
  method ShouldNotTraceServerCall(metadata: Metadata, methodName: string, ignoreGrpcMethods: Option<seq<IgnoreMatcher>>,
                                  isIgnored: (string, Option<seq<IgnoreMatcher>>) -> bool)
    returns (ignored: bool)
    ensures var last := Last(Split(methodName, SEPARATOR));
      ignored == isIgnored(if last != "" then last else methodName, ignoreGrpcMethods)
  {
    var name := ParseMethodName(methodName);
    ignored := isIgnored(name, ignoreGrpcMethods);
  }
}

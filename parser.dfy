/**
 * Dot-path lookup into a JSON document (`ValueParser::parse`): the path is
 * split on '.', and each segment is looked up in turn in the current value,
 * which must be an object.
 */
module Parser {
  import opened Types

  /** A JSON value. Numbers are kept as integers; floating point is not modelled. */
  datatype Value =
    | Null
    | Bool(b: bool)
    | Number(n: int)
    | Str(s: string)
    | Array(items: seq<Value>)
    | Object(fields: map<string, Value>)

  datatype ParseError = KeyNotFound(key: string) | NotAnObject(key: string)

  // ---------------------------------------------------------------------------
  // Splitting a path on '.' (`str::split('.')`)
  // ---------------------------------------------------------------------------

  /** The segments of `path` between dots; an empty path, or two adjacent dots,
      give empty segments, as `str::split` does. */
  function Split(path: string): (segments: seq<string>)
    ensures |segments| >= 1
  {
    if path == [] then [""]
    else
      var rest := Split(path[1..]);
      if path[0] == '.' then [""] + rest
      else [[path[0]] + rest[0]] + rest[1..]
  }

  /** The inverse of `Split`: the segments glued back with dots. */
  function Join(segments: seq<string>): string
    requires |segments| >= 1
  {
    if |segments| == 1 then segments[0]
    else segments[0] + "." + Join(segments[1..])
  }

  function DotCount(s: string): nat {
    if s == [] then 0 else (if s[0] == '.' then 1 else 0) + DotCount(s[1..])
  }

  /** Splitting loses nothing: joining the segments gives the path back. */
  lemma {:induction false} JoinSplit(path: string)
    ensures Join(Split(path)) == path
  {
    if path != [] {
      var rest := Split(path[1..]);
      JoinSplit(path[1..]);
      if path[0] == '.' {
        assert Split(path)[1..] == rest;
      } else {
        var segs := Split(path);
        assert segs[0] == [path[0]] + rest[0];
        if |rest| == 1 {
          assert path == [path[0]] + path[1..];
        } else {
          assert segs[1..] == rest[1..];
          calc {
            Join(segs);
            segs[0] + "." + Join(segs[1..]);
            ([path[0]] + rest[0]) + "." + Join(rest[1..]);
            [path[0]] + (rest[0] + "." + Join(rest[1..]));
            [path[0]] + Join(rest);
            [path[0]] + path[1..];
            path;
          }
        }
      }
    }
  }

  /** Every segment is free of dots, and there is one more segment than dots. */
  lemma {:induction false} SplitSegments(path: string)
    ensures |Split(path)| == DotCount(path) + 1
    ensures forall i :: 0 <= i < |Split(path)| ==> '.' !in Split(path)[i]
  {
    if path != [] {
      SplitSegments(path[1..]);
      var rest := Split(path[1..]);
      if path[0] != '.' {
        var segs := Split(path);
        forall i | 0 <= i < |segs| ensures '.' !in segs[i] {
          if i > 0 { assert segs[i] == rest[i]; }
        }
      }
    }
  }

  /** Splitting a dot-free prefix followed by anything extends the first segment. */
  lemma {:induction false} SplitDotFreePrefix(a: string, tail: string)
    requires '.' !in a
    ensures Split(a + tail) == [a + Split(tail)[0]] + Split(tail)[1..]
  {
    if a != [] {
      assert (a + tail)[1..] == a[1..] + tail;
      SplitDotFreePrefix(a[1..], tail);
      assert [a[0]] + (a[1..] + Split(tail)[0]) == a + Split(tail)[0];
    } else {
      assert a + tail == tail;
      var st := Split(tail);
      assert st == [st[0]] + st[1..];
      assert a + st[0] == st[0];
    }
  }

  /** The other round trip: dot-free segments survive joining and splitting. */
  lemma {:induction false} SplitJoin(segments: seq<string>)
    requires |segments| >= 1
    requires forall i :: 0 <= i < |segments| ==> '.' !in segments[i]
    ensures Split(Join(segments)) == segments
  {
    if |segments| == 1 {
      SplitDotFreePrefix(segments[0], "");
      assert segments[0] + "" == segments[0];
    } else {
      var tail := Join(segments[1..]);
      SplitJoin(segments[1..]);
      assert Split("." + tail) == [""] + Split(tail) by {
        assert ("." + tail)[1..] == tail;
      }
      SplitDotFreePrefix(segments[0], "." + tail);
      assert segments[0] + "." + tail == segments[0] + ("." + tail);
      assert segments[0] + "" == segments[0];
    }
  }

  // ---------------------------------------------------------------------------
  // Walking a value along the segments
  // ---------------------------------------------------------------------------

  /** One lookup: the value must be an object holding `key`. */
  function Step(v: Value, key: string): (r: Result<Value, ParseError>)
    ensures r.Ok? <==> v.Object? && key in v.fields
    ensures r.Ok? ==> r.value == v.fields[key]
    ensures r.Err? ==> r.error == (if v.Object? then KeyNotFound(key) else NotAnObject(key))
  {
    match v
    case Object(fields) => if key in fields then Ok(fields[key]) else Err(KeyNotFound(key))
    case _ => Err(NotAnObject(key))
  }

  /** The reference meaning of a path: look up the first segment, then walk
      the rest from the value found; the first failing lookup is the error. */
  function Walk(v: Value, segments: seq<string>): Result<Value, ParseError>
    decreases |segments|
  {
    if segments == [] then Ok(v)
    else
      match Step(v, segments[0])
      case Ok(child) => Walk(child, segments[1..])
      case Err(e) => Err(e)
  }

  /** Walking a concatenated path is walking the first part, then the second. */
  lemma {:induction false} WalkConcat(v: Value, p: seq<string>, q: seq<string>)
    ensures Walk(v, p + q) == match Walk(v, p) { case Ok(w) => Walk(w, q) case Err(e) => Err(e) }
    decreases |p|
  {
    if p == [] {
      assert p + q == q;
    } else {
      assert (p + q)[0] == p[0];
      assert (p + q)[1..] == p[1..] + q;
      match Step(v, p[0])
      case Ok(child) => WalkConcat(child, p[1..], q);
      case Err(_) =>
    }
  }

  /** The values a walk visits, the input first, until the walk ends or fails. */
  function Visited(v: Value, segments: seq<string>): seq<Value>
    decreases |segments|
  {
    if segments != [] && Step(v, segments[0]).Ok? then [v] + Visited(Step(v, segments[0]).value, segments[1..])
    else [v]
  }

  /** A walk succeeds exactly when it performs one object lookup per segment;
      each visited value is then an object holding the next segment, and the
      result is the last value visited, a sub-value of the input. */
  lemma {:induction false} WalkLookupPerSegment(v: Value, segments: seq<string>)
    ensures Walk(v, segments).Ok? <==> |Visited(v, segments)| == |segments| + 1
    ensures Visited(v, segments)[0] == v
    ensures Walk(v, segments).Ok? ==>
      Visited(v, segments)[|segments|] == Walk(v, segments).value &&
      forall i :: 0 <= i < |segments| ==>
        Visited(v, segments)[i].Object? && segments[i] in Visited(v, segments)[i].fields &&
        Visited(v, segments)[i].fields[segments[i]] == Visited(v, segments)[i + 1]
    decreases |segments|
  {
    if segments != [] && Step(v, segments[0]).Ok? {
      var child := Step(v, segments[0]).value;
      WalkLookupPerSegment(child, segments[1..]);
      var t := Visited(v, segments);
      var tc := Visited(child, segments[1..]);
      assert t == [v] + tc;
      if Walk(v, segments).Ok? {
        forall i | 0 <= i < |segments|
          ensures t[i].Object? && segments[i] in t[i].fields && t[i].fields[segments[i]] == t[i + 1]
        {
          if i > 0 {
            assert t[i] == tc[i - 1] && t[i + 1] == tc[i] && segments[i] == segments[1..][i - 1];
          }
        }
      }
    }
  }

  /** A failing walk stops at the last visited value: the error names the
      segment that was looked up there, `KeyNotFound` when that value is an
      object lacking the key and `NotAnObject` otherwise. */
  lemma {:induction false} WalkFailsAtLastVisited(v: Value, segments: seq<string>)
    requires Walk(v, segments).Err?
    ensures
      var t := Visited(v, segments);
      var i := |t| - 1;
      i < |segments| &&
      (t[i].Object? ==> segments[i] !in t[i].fields) &&
      Walk(v, segments).error == (if t[i].Object? then KeyNotFound(segments[i]) else NotAnObject(segments[i]))
    decreases |segments|
  {
    if Step(v, segments[0]).Ok? {
      var child := Step(v, segments[0]).value;
      WalkFailsAtLastVisited(child, segments[1..]);
      var t := Visited(v, segments);
      var tc := Visited(child, segments[1..]);
      assert t == [v] + tc;
      assert t[|t| - 1] == tc[|tc| - 1];
      assert segments[|t| - 1] == segments[1..][|tc| - 1];
    }
  }

  /** A one-segment path into an object holding that key yields the key's value. */
  lemma SingleKeyPath(fields: map<string, Value>, key: string)
    requires '.' !in key && key in fields
    ensures Walk(Object(fields), Split(key)) == Ok(fields[key])
  {
    SplitJoin([key]);
  }

  /** A nested path `key.rest` continues from the value under `key`. */
  lemma NestedPath(fields: map<string, Value>, key: string, rest: string)
    requires '.' !in key && key in fields
    ensures Walk(Object(fields), Split(key + "." + rest)) == Walk(fields[key], Split(rest))
  {
    SplitDotFreePrefix(key, "." + rest);
    assert key + "." + rest == key + ("." + rest);
    assert ("." + rest)[1..] == rest;
    assert Split("." + rest) == [""] + Split(rest);
    assert key + "" == key;
    var segs := Split(key + "." + rest);
    assert segs == [key] + Split(rest);
    assert segs[1..] == Split(rest);
  }

  // ---------------------------------------------------------------------------
  // The parser
  // ---------------------------------------------------------------------------

  /** `ValueParser::parse`: a loop over the path's segments that replaces the
      current value by its field, failing on the first segment that cannot be
      looked up. */
  method Parse(root: Value, dotPath: string) returns (r: Result<Value, ParseError>)
    ensures r == Walk(root, Split(dotPath))
  {
    var segments := Split(dotPath);
    var current := root;
    for i := 0 to |segments|
      invariant Walk(root, segments[..i]) == Ok(current)
    {
      var key := segments[i];
      assert segments[..i + 1] == segments[..i] + [key];
      WalkConcat(root, segments[..i], [key]);
      match current {
        case Object(fields) =>
          if key !in fields {
            WalkConcat(root, segments[..i + 1], segments[i + 1..]);
            assert segments[..i + 1] + segments[i + 1..] == segments;
            return Err(KeyNotFound(key));
          }
          current := fields[key];
        case _ =>
          WalkConcat(root, segments[..i + 1], segments[i + 1..]);
          assert segments[..i + 1] + segments[i + 1..] == segments;
          return Err(NotAnObject(key));
      }
    }
    assert segments[..|segments|] == segments;
    return Ok(current);
  }
}

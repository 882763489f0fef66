/**
 * The request-path tokeniser of server/server.js (`pathToArray`): split the
 * URL path on "/", refuse a path that does not start with "/", drop one
 * trailing empty segment and the leading empty segment.
 */
module PathTokenizer {
  import opened JsValues

  /** `s.split("/")`: the pieces between slashes, in order; there is always
      at least one (`"".split("/")` is `[""]`). */
  function Split(s: string): (parts: seq<string>)
    ensures |parts| >= 1
    ensures forall i :: 0 <= i < |parts| ==> '/' !in parts[i]
    decreases |s|
  {
    if |s| == 0 then [""]
    else
      var rest := Split(s[1..]);
      if s[0] == '/' then [""] + rest
      else [[s[0]] + rest[0]] + rest[1..]
  }

  /** `parts.join("/")`. */
  function Join(parts: seq<string>): string
  {
    if |parts| == 0 then ""
    else if |parts| == 1 then parts[0]
    else parts[0] + "/" + Join(parts[1..])
  }

  /** Joining the pieces of a split gives back the string. */
  lemma {:induction false} JoinSplit(s: string)
    ensures Join(Split(s)) == s
    decreases |s|
  {
    if |s| > 0 {
      JoinSplit(s[1..]);
      var rest := Split(s[1..]);
      if s[0] == '/' {
        assert ([""] + rest)[1..] == rest;
      } else {
        var parts := [[s[0]] + rest[0]] + rest[1..];
        if |rest| > 1 {
          assert parts[1..] == rest[1..];
          assert Join(rest) == rest[0] + "/" + Join(rest[1..]);
        }
      }
      assert s == [s[0]] + s[1..];
    }
  }

  /** Splitting `w + s`, for a slash-free `w`, glues `w` to the first piece. */
  lemma {:induction false} SplitPrefix(w: string, s: string)
    requires '/' !in w
    ensures Split(w + s) == [w + Split(s)[0]] + Split(s)[1..]
    decreases |w|
  {
    if |w| > 0 {
      SplitPrefix(w[1..], s);
      assert (w + s)[0] == w[0] && w[0] != '/';
      assert (w + s)[1..] == w[1..] + s;
      var rest := Split(w[1..] + s);
      assert Split(w + s) == [[w[0]] + rest[0]] + rest[1..];
      assert w == [w[0]] + w[1..];
      assert [w[0]] + (w[1..] + Split(s)[0]) == w + Split(s)[0];
    } else {
      assert w + s == s && w + Split(s)[0] == Split(s)[0];
    }
  }

  /** Splitting the join of slash-free pieces gives the pieces back. */
  lemma {:induction false} SplitJoin(parts: seq<string>)
    requires |parts| >= 1
    requires forall i :: 0 <= i < |parts| ==> '/' !in parts[i]
    ensures Split(Join(parts)) == parts
    decreases |parts|
  {
    if |parts| == 1 {
      SplitPrefix(parts[0], "");
      assert parts[0] + "" == parts[0];
    } else {
      var tail := Join(parts[1..]);
      SplitJoin(parts[1..]);
      SplitPrefix(parts[0], "/" + tail);
      assert ("/" + tail)[1..] == tail;
      assert Split("/" + tail) == [""] + parts[1..];
      assert Join(parts) == parts[0] + ("/" + tail);
      assert parts[0] + "" == parts[0];
      assert parts == [parts[0]] + parts[1..];
    }
  }

  /** A trailing slash adds exactly one empty piece at the end. */
  lemma {:induction false} SplitAppendSlash(s: string)
    ensures Split(s + "/") == Split(s) + [""]
    decreases |s|
  {
    if |s| > 0 {
      SplitAppendSlash(s[1..]);
      assert (s + "/")[0] == s[0];
      assert (s + "/")[1..] == s[1..] + "/";
    }
  }

  /** The last piece is empty exactly when the string is empty or ends
      with a slash. */
  lemma {:induction false} SplitLastEmpty(s: string)
    ensures Split(s)[|Split(s)| - 1] == "" <==> |s| == 0 || s[|s| - 1] == '/'
    decreases |s|
  {
    if |s| > 0 {
      SplitLastEmpty(s[1..]);
    }
  }

  /** Reference definition of the tokeniser: a path starting with "/" is the
      split of what follows that slash, less one trailing empty segment;
      anything else is refused with status 400. */
  function Tokenized(url: string): Result<seq<string>>
  {
    if |url| == 0 || url[0] != '/' then Err(Status(400))
    else
      var segs := Split(url[1..]);
      Ok(if segs[|segs| - 1] == "" then segs[..|segs| - 1] else segs)
  }

  /** `pathToArray` step by step as server.js does it: split, check the
      shape, splice away a trailing empty piece, splice away the first. */
  method PathToArray(url: string) returns (r: Result<seq<string>>)
    ensures r.Err? <==> |url| == 0 || url[0] != '/'
    ensures r.Err? ==> r.thrown == Status(400)
    ensures r == Tokenized(url)
  {
    var pathArray := Split(url);
    var pathArrayLength := |pathArray|;
    if pathArrayLength < 2 || pathArray[0] != "" {
      return Err(Status(400));
    }
    assert url == "/" + url[1..];
    ghost var segs := Split(url[1..]);
    assert pathArray == [""] + segs;
    assert pathArray[pathArrayLength - 1] == segs[|segs| - 1];
    if pathArray[pathArrayLength - 1] == "" {
      pathArray := pathArray[..pathArrayLength - 1];
      assert pathArray[1..] == segs[..|segs| - 1];
    }
    pathArray := pathArray[1..];
    return Ok(pathArray);
  }

  /** The shape test of server.js (at least two pieces, the first empty) holds
      exactly for the paths that start with a slash. */
  lemma ShapeCheckIsLeadingSlash(url: string)
    ensures (|Split(url)| < 2 || Split(url)[0] != "") <==> (|url| == 0 || url[0] != '/')
  {
  }

  /** No segment of a tokenised path contains a slash. */
  lemma TokenizedSegmentsSlashFree(url: string)
    requires Tokenized(url).Ok?
    ensures forall i :: 0 <= i < |Tokenized(url).value| ==> '/' !in Tokenized(url).value[i]
  {
  }

  /** The result is the split of the path minus its first piece and at most
      one trailing empty piece: order and interior empty pieces are kept. */
  lemma {:induction false} TokenizedIsSplitSlice(url: string)
    requires Tokenized(url).Ok?
    ensures var r := Tokenized(url).value;
      && |Split(url)| - 2 <= |r| <= |Split(url)| - 1
      && r == Split(url)[1..|r| + 1]
  {
    assert url == "/" + url[1..];
    assert Split(url) == [""] + Split(url[1..]);
  }

  /** Round trip: the path is the joined segments behind a slash, possibly
      followed by the one trailing slash that was dropped. */
  lemma {:induction false} TokenizedRoundTrip(url: string)
    requires Tokenized(url).Ok?
    ensures var r := Tokenized(url).value;
      url == "/" + Join(r) || url == "/" + Join(r) + "/"
  {
    var segs := Split(url[1..]);
    JoinSplit(url[1..]);
    assert url == "/" + url[1..];
    if segs[|segs| - 1] == "" && |segs| > 1 {
      JoinAppendEmpty(segs[..|segs| - 1]);
      assert segs == segs[..|segs| - 1] + [""];
    }
  }

  /** Joining with an extra empty last piece appends one slash. */
  lemma {:induction false} JoinAppendEmpty(parts: seq<string>)
    requires |parts| >= 1
    ensures Join(parts + [""]) == Join(parts) + "/"
    decreases |parts|
  {
    if |parts| > 1 {
      JoinAppendEmpty(parts[1..]);
      assert (parts + [""])[1..] == parts[1..] + [""];
    } else {
      assert (parts + [""])[1..] == [""];
    }
  }

  /** Conversely, slash-free segments whose last one is not empty are
      recovered from the path built by joining them behind a slash. */
  lemma {:induction false} TokenizeJoin(r: seq<string>)
    requires forall i :: 0 <= i < |r| ==> '/' !in r[i]
    requires r == [] || r[|r| - 1] != ""
    ensures Tokenized("/" + Join(r)) == Ok(r)
  {
    var url := "/" + Join(r);
    assert url[1..] == Join(r);
    if r != [] {
      SplitJoin(r);
    }
  }

  /** A single trailing slash does not change the tokens: "/a/b/" and
      "/a/b" both give ["a", "b"]. */
  lemma {:induction false} TrailingSlashInsensitive(url: string)
    requires |url| > 0 && url[0] == '/' && url[|url| - 1] != '/'
    ensures Tokenized(url + "/") == Tokenized(url)
  {
    var rest := url[1..];
    assert (url + "/")[1..] == rest + "/";
    SplitAppendSlash(rest);
    SplitLastEmpty(rest);
    assert Split(rest + "/")[..|Split(rest + "/")| - 1] == Split(rest);
  }

  /** The root path gives no segments at all, rather than being refused. */
  lemma RootIsEmpty()
    ensures Tokenized("/") == Ok([])
  {
    assert "/"[1..] == "";
  }

  /** Worked example: a trailing slash is ignored. */
  lemma {:induction false} TrailingSlashExample()
    ensures Tokenized("/a/b") == Ok(["a", "b"])
    ensures Tokenized("/a/b/") == Ok(["a", "b"])
  {
    TokenizeJoin(["a", "b"]);
    assert Join(["a", "b"]) == "a/b";
    assert "/" + "a/b" == "/a/b";
    TrailingSlashInsensitive("/a/b");
    assert "/a/b" + "/" == "/a/b/";
  }

  /** Worked example: an empty interior segment is kept. */
  lemma {:induction false} EmptySegmentExample()
    ensures Tokenized("/a//b") == Ok(["a", "", "b"])
  {
    TokenizeJoin(["a", "", "b"]);
    assert Join(["a", "", "b"]) == "a//b";
    assert "/" + "a//b" == "/a//b";
  }

  /** Worked example: a path without the leading slash is refused. */
  lemma NoLeadingSlashExample()
    ensures Tokenized("master") == Err(Status(400))
  {
  }
}

/** The values the server passes around: bodies, responses, request headers,
    the manipulation hooks, and header lines of the form "Name: value". */
module Http {
  import opened Strings

  datatype Option<+T> = None | Some(value: T)

  newtype Byte = x: int | 0 <= x < 256

  /** A message body: a Java `String` or a `byte[]`. */
  datatype Body = Text(text: string) | Binary(bytes: seq<Byte>)

  /** `ServiceResponse`: status, header lines in order, body, content type (absent = null). */
  datatype ServiceResponse = ServiceResponse(
    statusCode: int,
    headers: seq<string>,
    body: Body,
    contentType: Option<string>)

  /** One request header name with all its values, as Undertow's `HeaderValues` holds them. */
  datatype HeaderValues = HeaderValues(name: string, values: seq<string>)

  /** `InteractionManipulations`: the caller's hooks. The Java hooks that change a
      list in place are functions from the list to its new contents here, and the
      `null` a single response-header hook returns to drop a header is `None`. */
  datatype Manipulations = Manipulations(
    headerReplacement: (string, string) -> string,
    changeSingleHeaderForRequestToServer: (string, string, seq<string>) -> seq<string>,
    changeAllHeadersForRequestToServer: seq<string> -> seq<string>,
    changeBodyForRequestToServer: string -> string,
    changeUrlForRequestToServer: string -> string,
    changeSingleHeaderReturnedBackFromServer: (int, string) -> Option<string>,
    changeAllHeadersReturnedBackFromServer: seq<string> -> seq<string>,
    changeBodyReturnedBackFromServer: string -> string)

  /** The no-op manipulations: every hook leaves its input as it is. */
  const NoManipulations := Manipulations(
    (name, value) => value,
    (verb, header, headers) => headers,
    headers => headers,
    body => body,
    url => url,
    (index, header) => Some(header),
    headers => headers,
    body => body)

  const Separator := ": "

  /** No ": " anywhere in `s`. */
  predicate NoSeparator(s: string) {
    forall k: nat :: k < |s| ==> !OccursAt(s, Separator, k)
  }

  /** A response header line cut at its first ": " into name and value; `None`
      where there is no ": ", on which the Java `substring(0, -1)` throws. */
  function SplitHeader(h: string): (r: Option<(string, string)>)
    ensures r.None? <==> NoSeparator(h)
    ensures r.Some? ==> r.value.0 + Separator + r.value.1 == h
    ensures r.Some? ==> forall k: nat :: k < |r.value.0| ==> !OccursAt(h, Separator, k)
  {
    var ix := IndexOf(h, Separator, 0);
    if ix < 0 then None
    else
      assert h == h[..ix] + h[ix..ix + 2] + h[ix + 2..];
      Some((h[..ix], h[ix + 2..]))
  }

  /** Joining a name without ": " to any value and splitting the line again gives
      back the name and the value. */
  lemma SplitJoin(name: string, value: string)
    requires NoSeparator(name)
    ensures SplitHeader(name + Separator + value) == Some((name, value))
  {
    var h := name + Separator + value;
    assert OccursAt(h, Separator, |name|) by {
      assert h[|name|..|name| + 2] == Separator;
    }
    forall k: nat | k < |name| ensures !OccursAt(h, Separator, k) {
      if k + 2 <= |name| {
        assert h[k..k + 2] == name[k..k + 2];
        assert !OccursAt(name, Separator, k);
      } else {
        assert h[k + 1] == ':';
      }
    }
    var ix := IndexOf(h, Separator, 0);
    assert ix == |name|;
    assert h[..ix] == name;
    assert h[ix + 2..] == value;
  }

  /** The header lines of a response split in order; `None` as soon as one of
      them has no ": ". */
  function SplitAll(hs: seq<string>): (r: Option<seq<(string, string)>>)
    ensures r.Some? ==> |r.value| == |hs|
  {
    if hs == [] then Some([])
    else
      match SplitAll(hs[..|hs| - 1])
      case None => None
      case Some(pairs) =>
        match SplitHeader(hs[|hs| - 1])
        case None => None
        case Some(pair) => Some(pairs + [pair])
  }

  /** `SplitAll` succeeds exactly when every line splits, and then holds the
      split of each line at the same position. */
  lemma {:induction false} SplitAllMeaning(hs: seq<string>)
    ensures SplitAll(hs).Some? <==> forall k :: 0 <= k < |hs| ==> SplitHeader(hs[k]).Some?
    ensures SplitAll(hs).Some? ==>
      |SplitAll(hs).value| == |hs| &&
      forall k :: 0 <= k < |hs| ==> SplitHeader(hs[k]) == Some(SplitAll(hs).value[k])
  {
    if hs != [] {
      var init, last := hs[..|hs| - 1], hs[|hs| - 1];
      SplitAllMeaning(init);
      assert forall k :: 0 <= k < |init| ==> init[k] == hs[k];
      match SplitAll(init)
      case None =>
        var k :| 0 <= k < |init| && SplitHeader(init[k]).None?;
        assert SplitHeader(hs[k]).None?;
      case Some(pairs) =>
        match SplitHeader(last)
        case None =>
          assert SplitHeader(hs[|hs| - 1]).None?;
        case Some(pair) =>
          assert SplitAll(hs) == Some(pairs + [pair]);
          forall k | 0 <= k < |hs| ensures SplitHeader(hs[k]) == Some((pairs + [pair])[k]) {
            if k < |init| {
              assert SplitHeader(init[k]) == Some(pairs[k]);
            }
          }
    }
  }
}

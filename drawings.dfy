/**
 * The drawings router: the extraction of the base64 payload from a canvas
 * data URL, the error mapping of `save_drawing` and the `auto-save`
 * endpoint that stores nothing.
 */
module Drawings {
  import opened Schema

  /** The text before the first comma of `s`, or all of `s` when it has none. */
  function FirstField(s: string): (r: string)
    ensures ',' !in r
    ensures |r| <= |s| && r == s[..|r|]
    ensures |r| < |s| ==> s[|r|] == ','
  {
    if s == [] || s[0] == ',' then [] else [s[0]] + FirstField(s[1..])
  }

  /** Python's `s.split(',')`: never empty, and no field holds a comma. */
  function Split(s: string): (fields: seq<string>)
    ensures |fields| >= 1
    ensures forall i :: 0 <= i < |fields| ==> ',' !in fields[i]
    ensures fields[0] == FirstField(s)
    ensures ',' in s <==> |fields| >= 2
    decreases |s|
  {
    var f := FirstField(s);
    if |f| == |s| then
      [s]
    else
      assert s[|f|] in s;
      [f] + Split(s[|f| + 1..])
  }

  /** The inverse of `Split`: the fields joined back with commas. */
  function Join(fields: seq<string>): string
    requires |fields| >= 1
  {
    if |fields| == 1 then fields[0] else fields[0] + "," + Join(fields[1..])
  }

  /** One step of `Split`: the first field, then the fields after its comma. */
  lemma SplitUnfold(s: string)
    requires |FirstField(s)| < |s|
    ensures Split(s) == [FirstField(s)] + Split(s[|FirstField(s)| + 1..])
  {
  }

  lemma JoinCons(head: string, tail: seq<string>)
    requires |tail| >= 1
    ensures Join([head] + tail) == head + "," + Join(tail)
  {
    assert ([head] + tail)[1..] == tail;
  }

  /** A text cut at one of its commas is the part before, the comma, and the part after. */
  lemma CutAtComma(s: string, k: nat)
    requires k < |s| && s[k] == ','
    ensures s == s[..k] + "," + s[k + 1..]
  {
  }

  lemma {:induction false} JoinSplit(s: string)
    ensures Join(Split(s)) == s
    decreases |s|
  {
    var f := FirstField(s);
    if |f| < |s| {
      var rest := s[|f| + 1..];
      SplitUnfold(s);
      JoinCons(f, Split(rest));
      JoinSplit(rest);
      CutAtComma(s, |f|);
      calc {
        Join(Split(s));
        Join([f] + Split(rest));
        f + "," + Join(Split(rest));
        f + "," + rest;
        s;
      }
    }
  }

  lemma {:induction false} SplitJoin(fields: seq<string>)
    requires |fields| >= 1
    requires forall i :: 0 <= i < |fields| ==> ',' !in fields[i]
    ensures Split(Join(fields)) == fields
    decreases |fields|
  {
    var head := fields[0];
    if |fields| == 1 {
      assert Join(fields) == head;
      FirstFieldOfFollowed(head, head);
    } else {
      var rest := Join(fields[1..]);
      var s := head + "," + rest;
      assert Join(fields) == s;
      assert s[..|head| + 1] == head + ",";
      FirstFieldOfFollowed(head, s);
      assert s[|head| + 1..] == rest;
      SplitJoin(fields[1..]);
      assert Split(s) == [head] + Split(rest);
      assert fields == [head] + fields[1..];
    }
  }

  /** A comma-free head followed by a comma or by nothing is the first field. */
  lemma {:induction false} FirstFieldOfFollowed(head: string, s: string)
    requires ',' !in head
    requires s == head || (|s| > |head| && s[..|head| + 1] == head + ",")
    ensures FirstField(s) == head
    decreases |head|
  {
    if head != [] {
      assert s[0] == head[0];
      assert head[0] in head;
      var tail := head[1..];
      assert ',' !in tail by {
        forall i | 0 <= i < |tail| ensures tail[i] != ',' {
          assert tail[i] == head[i + 1];
        }
      }
      if s == head {
        FirstFieldOfFollowed(tail, s[1..]);
      } else {
        assert s[1..][..|tail| + 1] == tail + ",";
        FirstFieldOfFollowed(tail, s[1..]);
      }
    }
  }

  /**
   * The payload `save_drawing` hands to the base64 decoder: the second
   * comma-separated field of the data URL when it holds a comma, else the
   * whole string.
   */
  function ImagePayload(imageData: string): (payload: string)
    ensures ',' !in payload
    ensures |payload| <= |imageData|
  {
    if ',' in imageData then Split(imageData)[1] else imageData
  }

  /** A data URL `header,payload` yields its payload, whatever follows a second comma. */
  lemma PayloadOfDataUrl(header: string, payload: string)
    requires ',' !in header && ',' !in payload
    ensures ImagePayload(header + "," + payload) == payload
  {
    var s := header + "," + payload;
    assert s == Join([header, payload]);
    SplitJoin([header, payload]);
    assert s[|header|] in s;
  }

  lemma PayloadIsSecondField(header: string, payload: string, rest: string)
    requires ',' !in header && ',' !in payload
    ensures ImagePayload(header + "," + payload + "," + rest) == payload
  {
    var fields := [header, payload] + Split(rest);
    JoinSplit(rest);
    assert Join(fields) == header + "," + payload + "," + rest by {
      assert fields[1..] == [payload] + Split(rest);
      assert fields[2..] == Split(rest);
    }
    SplitJoin(fields);
    var s := header + "," + payload + "," + rest;
    assert s[|header|] in s;
  }

  /** The header before the first comma holds no comma, so it is dropped exactly. */
  lemma PayloadFollowsHeader(imageData: string)
    requires ',' in imageData
    ensures var header := FirstField(imageData);
      |header| < |imageData| &&
      imageData[..|header| + 1] == header + "," &&
      ImagePayload(imageData) == FirstField(imageData[|header| + 1..])
  {
    var header := FirstField(imageData);
    var fields := Split(imageData);
    assert |fields| >= 2;
    assert |header| < |imageData|;
    var rest := imageData[|header| + 1..];
    SplitUnfold(imageData);
    assert fields[1] == Split(rest)[0];
    assert imageData[..|header| + 1] == imageData[..|header|] + [imageData[|header|]];
  }

  lemma PayloadWithoutComma(imageData: string)
    requires ',' !in imageData
    ensures ImagePayload(imageData) == imageData
  {
  }

  /** The body of a `POST /drawings/save` request. */
  datatype DrawingSave = DrawingSave(drawingData: string, imageData: string)

  /** The response of `save_drawing`: the uploaded image's URL and the echoed canvas state. */
  datatype DrawingResponse = DrawingResponse(imageUrl: string, drawingData: string)

  /**
   * What decoding the payload, re-encoding it as PNG and uploading it
   * produced: the URL of the stored image, or the text of the exception.
   */
  datatype Outcome = Uploaded(url: string) | Failed(message: string)

  const FailurePrefix := "Failed to save drawing: "

  /** The decimal text of a natural number, as Python's `str` writes it. */
  function Digits(n: nat): (r: string)
    ensures |r| >= 1
    ensures forall i :: 0 <= i < |r| ==> '0' <= r[i] <= '9'
    decreases n
  {
    if n < 10 then [DigitChar(n)] else Digits(n / 10) + [DigitChar(n % 10)]
  }

  function DigitChar(d: nat): (c: char)
    requires d < 10
    ensures '0' <= c <= '9'
  {
    "0123456789"[d]
  }

  /** The number a decimal text denotes; the inverse of `Digits`. */
  function DigitsValue(s: string): nat
  {
    if s == [] then 0
    else DigitsValue(s[..|s| - 1]) * 10 + (if '0' <= s[|s| - 1] <= '9' then (s[|s| - 1] as int - '0' as int) else 0)
  }

  lemma {:induction false} DigitsRoundTrip(n: nat)
    ensures DigitsValue(Digits(n)) == n
    decreases n
  {
    if n >= 10 {
      DigitsRoundTrip(n / 10);
      var s := Digits(n);
      assert s[..|s| - 1] == Digits(n / 10);
    }
    assert "0123456789"[n % 10] as int - '0' as int == n % 10;
  }

  /** Python's `str` of an integer. */
  function IntText(i: int): string
  {
    if i < 0 then "-" + Digits(-i) else Digits(i)
  }

  /** The Cloudinary public id of a user's drawing, `drawing_<id>`. */
  function PublicId(userId: int): (id: string)
    ensures |id| > |"drawing_"| && id[..|"drawing_"|] == "drawing_"
  {
    "drawing_" + IntText(userId)
  }

  lemma PublicIdsDistinct(a: nat, b: nat)
    requires a != b
    ensures PublicId(a) != PublicId(b)
  {
    var p := "drawing_";
    if PublicId(a) == PublicId(b) {
      assert PublicId(a)[|p|..] == Digits(a);
      assert PublicId(b)[|p|..] == Digits(b);
      DigitsRoundTrip(a);
      DigitsRoundTrip(b);
    }
  }

  /**
   * `save_drawing`. `process(payload, publicId)` stands for decoding the
   * payload, re-encoding it as PNG and uploading it under the public id;
   * any exception along the way becomes a 400 carrying its text.
   */
  function SaveDrawing(req: DrawingSave, userId: int, process: (string, string) -> Outcome): (r: Result<DrawingResponse>)
    ensures r.Err? <==> process(ImagePayload(req.imageData), PublicId(userId)).Failed?
    ensures r.Err? ==>
      && r.error.status == BadRequest
      && |r.error.detail| >= |FailurePrefix| && r.error.detail[..|FailurePrefix|] == FailurePrefix
      && r.error.detail[|FailurePrefix|..] == process(ImagePayload(req.imageData), PublicId(userId)).message
    ensures r.Ok? ==>
      && r.value.drawingData == req.drawingData
      && r.value.imageUrl == process(ImagePayload(req.imageData), PublicId(userId)).url
  {
    match process(ImagePayload(req.imageData), PublicId(userId))
    case Uploaded(url) => Ok(DrawingResponse(url, req.drawingData))
    case Failed(message) => Err(HttpError(BadRequest, FailurePrefix + message))
  }

  const AutoSavedMessage := "Drawing auto-saved"

  /** `auto_save_drawing`: accepts any canvas state, stores nothing, always succeeds. */
  method AutoSaveDrawing(db: Db, drawingData: map<string, string>) returns (message: string)
    ensures message == AutoSavedMessage
  {
    message := AutoSavedMessage;
  }
}

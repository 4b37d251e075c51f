/** The backend's Express error handler: it classifies a thrown error by
    its name and code into a status code and a message, always under the
    status "error". */
module ErrorHandler {
  import opened Common
  import opened Effects

  /** The fields of a thrown error the handler reads. `fieldMessages` are
      the `message`s of the values of `errors`, in enumeration order (only
      a validation error has any); an absent `message`, `code` or
      `statusCode` is `None`. */
  datatype Thrown = Thrown(name: string, message: Option<string>, code: Option<int>,
                           statusCode: Option<int>, fieldMessages: seq<string>)

  predicate IsMongoError(e: Thrown) {
    e.name == "MongoError" || e.name == "MongoServerError"
  }

  const DuplicateKey := 11000

  /** The reply the handler sends for `e`. */
  function Classify(e: Thrown): Reply {
    if e.name == "ValidationError" then Failure(400, Join(e.fieldMessages, ", "))
    else if IsMongoError(e) && e.code == Some(DuplicateKey) then Failure(400, "Duplicate entry found")
    else Failure(CodeOr(e.statusCode, 500), TextOr(e.message, "Internal server error"))
  }

  /** The three branches of the handler, each exactly when its guard holds. */
  lemma ClassifyCases(e: Thrown)
    ensures var r := Classify(e);
      r.Json? && r.status == "error" &&
      (e.name == "ValidationError" ==> r == Failure(400, Join(e.fieldMessages, ", "))) &&
      (e.name != "ValidationError" && IsMongoError(e) && e.code == Some(DuplicateKey) ==>
         r == Failure(400, "Duplicate entry found")) &&
      (e.name != "ValidationError" && !(IsMongoError(e) && e.code == Some(DuplicateKey)) ==>
         r.code == CodeOr(e.statusCode, 500) && r.message == TextOr(e.message, "Internal server error"))
  {
  }

  /** A Mongo error with any other code is answered as if it were a plain
      error of another name: it falls through to the default reply. */
  lemma OtherMongoCodesFallThrough(e: Thrown, other: string)
    requires IsMongoError(e) && e.code != Some(DuplicateKey)
    requires other != "ValidationError" && other != "MongoError" && other != "MongoServerError"
    ensures Classify(e) == Classify(e.(name := other))
    ensures Classify(e) == Failure(CodeOr(e.statusCode, 500), TextOr(e.message, "Internal server error"))
  {
  }

  /** Outside the validation branch the reply always has a non-empty
      message and a non-zero code. */
  lemma DefaultReplyIsNeverBlank(e: Thrown)
    requires e.name != "ValidationError"
    ensures Classify(e).message != "" && Classify(e).code != 0
  {
  }

  /** `[" " + x | x in xs]`. */
  function Padded(xs: seq<string>): (r: seq<string>)
    ensures |r| == |xs|
    ensures forall i :: 0 <= i < |xs| ==> r[i] == " " + xs[i]
  {
    if xs == [] then [] else [" " + xs[0]] + Padded(xs[1..])
  }

  lemma JoinOfCons(a: string, rest: seq<string>, sep: string)
    requires rest != []
    ensures Join([a] + rest, sep) == a + sep + Join(rest, sep)
  {
    assert ([a] + rest)[1..] == rest;
  }

  /** Joining with ", " is joining the padded messages with ",". */
  lemma {:induction false} JoinCommaSpace(xs: seq<string>, p: string)
    requires |xs| >= 1
    ensures p + Join(xs, ", ") == Join([p + xs[0]] + Padded(xs[1..]), ",")
    decreases |xs|
  {
    if |xs| >= 2 {
      var tail := Padded(xs[2..]);
      JoinCommaSpace(xs[1..], " ");
      assert xs[1..][1..] == xs[2..];
      assert Padded(xs[1..]) == [" " + xs[1]] + tail;
      JoinOfCons(p + xs[0], Padded(xs[1..]), ",");
      calc {
        p + Join(xs, ", ");
        p + (xs[0] + ", " + Join(xs[1..], ", "));
        (p + xs[0]) + "," + (" " + Join(xs[1..], ", "));
        (p + xs[0]) + "," + Join([" " + xs[1]] + tail, ",");
        Join([p + xs[0]] + Padded(xs[1..]), ",");
      }
    } else {
      assert xs[1..] == [];
    }
  }

  /** The validation reply lists every field message, in order: split at
      its commas it gives back the first message and the others, each
      after the space of the separator (provided no message holds a
      comma itself). */
  lemma ValidationMessageLists(e: Thrown)
    requires e.name == "ValidationError" && |e.fieldMessages| >= 1
    requires forall i :: 0 <= i < |e.fieldMessages| ==> ',' !in e.fieldMessages[i]
    ensures Classify(e).code == 400
    ensures SplitOn(Classify(e).message, ',') == [e.fieldMessages[0]] + Padded(e.fieldMessages[1..])
  {
    var xs := e.fieldMessages;
    JoinCommaSpace(xs, "");
    assert "" + xs[0] == xs[0];
    assert "" + Join(xs, ", ") == Join(xs, ", ");
    var ys := [xs[0]] + Padded(xs[1..]);
    forall k | 0 <= k < |ys|
      ensures ',' !in ys[k]
    {
      if k > 0 {
        assert ys[k] == " " + xs[k];
      }
    }
    JoinSplitOn(ys, ',');
  }
}

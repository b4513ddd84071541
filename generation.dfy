/**
 * The reply side of `generate` in the console sales bot: the completion
 * endpoint answers with an HTTP status and a sequence of line records; the
 * `response` fields are concatenated until the first record marked `done`,
 * whose `context` becomes the conversation token for the next call. A record
 * carrying `error` aborts the call. The records arrive already parsed.
 */
module Generation {
  import opened Options

  /** One parsed line of the endpoint's answer; `None` is an absent key. */
  datatype Record = Record(
    response: Option<string>,
    error: Option<string>,
    done: bool,
    context: Option<seq<int>>)

  /** What the endpoint returns for one request. */
  datatype Reply = Reply(status: int, lines: seq<Record>)

  /** Why a call to `generate` failed. */
  datatype Failure = HttpStatus(code: int) | InBandError(message: string)

  /**
   * The outcome of `generate`: the reply text and the new context, a raised
   * exception, or falling off the end of the records (the function returns
   * `None`).
   */
  datatype GenResult = Ok(text: string, context: seq<int>) | Err(failure: Failure) | NoDone

  /** `body.get('response', '')` */
  function ResponsePart(body: Record): (part: string)
  {
    body.response.GetOr("")
  }

  /** `body.get('context', [])` */
  function FinalContext(body: Record): (context: seq<int>)
  {
    body.context.GetOr([])
  }

  /** `raise_for_status` raises for client (4xx) and server (5xx) errors. */
  predicate IsHttpError(status: int)
  {
    400 <= status < 600
  }

  /** Text already gathered in front of the outcome of the remaining records. */
  function Prepend(prefix: string, r: GenResult): (r': GenResult)
  {
    if r.Ok? then Ok(prefix + r.text, r.context) else r
  }

  /** The walk over the records, one record at a time. */
  function Fold(records: seq<Record>): (r: GenResult)
  {
    if records == [] then NoDone
    else
      var body := records[0];
      if body.error.Some? then Err(InBandError(body.error.value))
      else if body.done then Ok(ResponsePart(body), FinalContext(body))
      else Prepend(ResponsePart(body), Fold(records[1..]))
  }

  /** The whole of `generate` after the request is sent. */
  function Answer(reply: Reply): (r: GenResult)
  {
    if IsHttpError(reply.status) then Err(HttpStatus(reply.status)) else Fold(reply.lines)
  }

  /** Concatenation, in order, of the `response` fields (missing ones are ""). */
  function Responses(records: seq<Record>): (text: string)
  {
    if records == [] then "" else ResponsePart(records[0]) + Responses(records[1..])
  }

  /** No record before index `k` carries an error or is done. */
  ghost predicate PassesThrough(records: seq<Record>, k: int)
    requires 0 <= k <= |records|
  {
    forall j :: 0 <= j < k ==> records[j].error.None? && !records[j].done
  }

  /** Record `k` is the first one that is done, and nothing up to it carries an error. */
  ghost predicate FirstDoneAt(records: seq<Record>, k: int)
  {
    0 <= k < |records| && PassesThrough(records, k) && records[k].error.None? && records[k].done
  }

  /** Record `k` is the first one that carries an error or is done, and it carries an error. */
  ghost predicate FirstErrorAt(records: seq<Record>, k: int)
  {
    0 <= k < |records| && PassesThrough(records, k) && records[k].error.Some?
  }

  lemma PrependAssociates(a: string, b: string, r: GenResult)
    ensures Prepend(a, Prepend(b, r)) == Prepend(a + b, r)
  {
  }

  /**
   * The first `done` record ends the walk: the text is every `response` up
   * to and including it, the context is its `context` (or [] when absent).
   */
  lemma {:induction false} FoldStopsAtFirstDone(records: seq<Record>, k: int)
    requires FirstDoneAt(records, k)
    ensures Fold(records) == Ok(Responses(records[..k + 1]), FinalContext(records[k]))
  {
    if k == 0 {
      assert records[..1] == [records[0]];
      assert Responses(records[..1]) == ResponsePart(records[0]) + Responses([]);
    } else {
      var rest := records[1..];
      assert FirstDoneAt(rest, k - 1) by {
        forall j | 0 <= j < k - 1 ensures rest[j].error.None? && !rest[j].done {
          assert rest[j] == records[j + 1];
        }
      }
      FoldStopsAtFirstDone(rest, k - 1);
      assert records[..k + 1][1..] == rest[..k];
      assert records[..k + 1][0] == records[0];
    }
  }

  /**
   * An error record reached before any `done` record fails the call, even
   * when that same record is marked `done`: the error check comes first.
   */
  lemma {:induction false} FoldFailsAtFirstError(records: seq<Record>, k: int)
    requires FirstErrorAt(records, k)
    ensures Fold(records) == Err(InBandError(records[k].error.value))
  {
    if k > 0 {
      var rest := records[1..];
      assert FirstErrorAt(rest, k - 1) by {
        forall j | 0 <= j < k - 1 ensures rest[j].error.None? && !rest[j].done {
          assert rest[j] == records[j + 1];
        }
      }
      FoldFailsAtFirstError(rest, k - 1);
    }
  }

  /** Without any `done` or `error` record, `generate` returns nothing. */
  lemma {:induction false} FoldWithoutDone(records: seq<Record>)
    requires PassesThrough(records, |records|)
    ensures Fold(records) == NoDone
  {
    if records != [] {
      var rest := records[1..];
      assert PassesThrough(rest, |rest|) by {
        forall j | 0 <= j < |rest| ensures rest[j].error.None? && !rest[j].done {
          assert rest[j] == records[j + 1];
        }
      }
      FoldWithoutDone(rest);
    }
  }

  /** Every successful walk ends at the first `done` record. */
  lemma {:induction false} FoldOkHasFirstDone(records: seq<Record>)
    requires Fold(records).Ok?
    ensures exists k :: FirstDoneAt(records, k)
  {
    var body := records[0];
    if body.done {
      assert FirstDoneAt(records, 0);
    } else {
      var rest := records[1..];
      FoldOkHasFirstDone(rest);
      var k :| FirstDoneAt(rest, k);
      assert FirstDoneAt(records, k + 1) by {
        forall j | 0 <= j < k + 1 ensures records[j].error.None? && !records[j].done {
          if j > 0 { assert records[j] == rest[j - 1]; }
        }
        assert records[k + 1] == rest[k];
      }
    }
  }

  /** Records after the one that ends the walk are never looked at. */
  lemma {:induction false} FoldIgnoresTail(a: seq<Record>, b: seq<Record>)
    requires Fold(a) != NoDone
    ensures Fold(a + b) == Fold(a)
  {
    assert a != [];
    assert (a + b)[0] == a[0];
    if a[0].error.None? && !a[0].done {
      assert (a + b)[1..] == a[1..] + b;
      FoldIgnoresTail(a[1..], b);
    }
  }

  /**
   * Records that neither fail nor finish only contribute their text: the
   * walk over `a + b` is the walk over `b` with `a`'s responses in front.
   */
  lemma {:induction false} FoldContinues(a: seq<Record>, b: seq<Record>)
    requires PassesThrough(a, |a|)
    ensures Fold(a + b) == Prepend(Responses(a), Fold(b))
  {
    if a == [] {
      assert a + b == b;
      assert Prepend("", Fold(b)) == Fold(b);
    } else {
      var rest := a[1..];
      assert PassesThrough(rest, |rest|) by {
        forall j | 0 <= j < |rest| ensures rest[j].error.None? && !rest[j].done {
          assert rest[j] == a[j + 1];
        }
      }
      assert (a + b)[0] == a[0];
      assert (a + b)[1..] == rest + b;
      FoldContinues(rest, b);
      PrependAssociates(ResponsePart(a[0]), Responses(rest), Fold(b));
    }
  }

  /**
   * `generate` after `raise_for_status`: the loop over the line records,
   * accumulating the `response` text.
   */
  method Generate(reply: Reply) returns (r: GenResult)
    ensures r == Answer(reply)
  {
    if IsHttpError(reply.status) {
      return Err(HttpStatus(reply.status));
    }
    var lines := reply.lines;
    var response := "";
    var i := 0;
    while i < |lines|
      invariant 0 <= i <= |lines|
      invariant Fold(lines) == Prepend(response, Fold(lines[i..]))
    {
      var body := lines[i];
      var responsePart := ResponsePart(body);
      if body.error.Some? {
        return Err(InBandError(body.error.value));
      }
      PrependAssociates(response, responsePart, Fold(lines[i + 1..]));
      assert lines[i..][1..] == lines[i + 1..];
      response := response + responsePart;
      if body.done {
        return Ok(response, FinalContext(body));
      }
      i := i + 1;
    }
    return NoDone;
  }
}

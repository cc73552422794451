/**
 * What the REST controllers answer: a status code and a body that is an
 * id, a text, or the exception that ended the request. An exception a
 * controller catches becomes 400 with its message; one it does not catch
 * reaches Spring, which answers 500. Message texts of exceptions are not
 * modelled: the body carries the exception itself.
 */
module Web {
  import opened Common

  datatype HttpStatus = OK | BAD_REQUEST | FORBIDDEN | INTERNAL_SERVER_ERROR

  /** The numeric status code. */
  function Code(s: HttpStatus): int {
    match s
    case OK => 200
    case BAD_REQUEST => 400
    case FORBIDDEN => 403
    case INTERNAL_SERVER_ERROR => 500
  }

  datatype Body = Id(id: int) | Text(text: string) | Thrown(error: Exception)

  datatype Response = Response(body: Body, status: HttpStatus)

  /** The messages appended one after the other. */
  function Concat(msgs: seq<string>): string {
    if msgs == [] then "" else Concat(msgs[..|msgs| - 1]) + msgs[|msgs| - 1]
  }

  /** Concatenation distributes over joining the lists. */
  lemma {:induction false} ConcatAppend(a: seq<string>, b: seq<string>)
    ensures Concat(a + b) == Concat(a) + Concat(b)
    decreases |b|
  {
    if b == [] {
      assert a + b == a;
    } else {
      var b' := b[..|b| - 1];
      assert (a + b)[..|a + b| - 1] == a + b';
      ConcatAppend(a, b');
    }
  }

  /** Every message appears in the text at the offset of the messages before it. */
  lemma {:induction false} ConcatHoldsEach(msgs: seq<string>, i: nat)
    requires i < |msgs|
    ensures var at := |Concat(msgs[..i])|;
      at + |msgs[i]| <= |Concat(msgs)| && Concat(msgs)[at..at + |msgs[i]|] == msgs[i]
  {
    assert msgs == msgs[..i] + [msgs[i]] + msgs[i + 1..];
    ConcatAppend(msgs[..i] + [msgs[i]], msgs[i + 1..]);
    ConcatAppend(msgs[..i], [msgs[i]]);
    assert [msgs[i]][..0] == [];
  }

  /**
   * The binding-error body: every field error's default message appended
   * to a `StringBuilder`, in order.
   */
  method JoinMessages(msgs: seq<string>) returns (s: string)
    ensures s == Concat(msgs)
  {
    s := "";
    for i := 0 to |msgs|
      invariant s == Concat(msgs[..i])
    {
      assert msgs[..i + 1][..i] == msgs[..i];
      s := s + msgs[i];
    }
    assert msgs[..|msgs|] == msgs;
  }
}

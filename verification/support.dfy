/**
 * The error chain of namespace `support` (error_code.hpp): a code, a text and
 * an ordered chain of underlying errors. Code 0 means "no error yet".
 */
module Support {
  import opened Numerals

  /** The value of an error record; `chain` holds copies of the attached errors, oldest first. */
  datatype ErrorValue = ErrorValue(code: int, text: string, chain: seq<ErrorValue>)

  /** A record that has not been set: what the default constructor builds. */
  const NoError := ErrorValue(0, "", [])

  /** The value after `attach(other)`: `other` appended to the chain. */
  function Attached(e: ErrorValue, other: ErrorValue): (r: ErrorValue)
    ensures r.code == e.code && r.text == e.text
    ensures |r.chain| == |e.chain| + 1 && r.chain[..|e.chain|] == e.chain && r.chain[|e.chain|] == other
  {
    e.(chain := e.chain + [other])
  }

  /**
   * The value after `attach_or_create(err, code, s)`: a record with code 0 is
   * replaced by (code, s) with an empty chain (anything attached to it is
   * dropped); any other record keeps its code and text and gains one
   * underlying (code, s) entry at the end of its chain.
   */
  function AttachOrCreated(e: ErrorValue, code: int, s: string): (r: ErrorValue)
    ensures e.code == 0 ==> r == ErrorValue(code, s, [])
    ensures e.code != 0 ==> r.code == e.code && r.text == e.text && r.chain == e.chain + [ErrorValue(code, s, [])]
  {
    if e.code == 0 then ErrorValue(code, s, []) else Attached(e, ErrorValue(code, s, []))
  }

  /** The first two lines `operator<<` writes: the record's own code and text. */
  function Header(e: ErrorValue): string {
    "Error code: " + IntToDecimal(e.code) + ". Error text: " + e.text + "\n"
    + "Underlying error codes: " + "\n"
  }

  /** What `operator<<` writes for `e`: its header, then every chain entry in order, each followed by a newline. */
  function Render(e: ErrorValue): (r: string)
    ensures e.chain == [] ==> r == Header(e)
    decreases e, 1
  {
    Header(e) + RenderChain(e, |e.chain|)
  }

  /** The rendering of the first `n` chain entries of `e`. */
  function RenderChain(e: ErrorValue, n: nat): string
    requires n <= |e.chain|
    decreases e, 0, n
  {
    if n == 0 then "" else RenderChain(e, n - 1) + Render(e.chain[n - 1]) + "\n"
  }

  /** The loop of `operator<<`, writing the chain entry by entry. */
  method Write(e: ErrorValue) returns (out: string)
    ensures out == Render(e)
  {
    var entries := "";
    var i := 0;
    while i < |e.chain|
      invariant 0 <= i <= |e.chain|
      invariant entries == RenderChain(e, i)
    {
      RenderChainStep(e, i);
      entries := entries + (Render(e.chain[i]) + "\n");
      i := i + 1;
    }
    out := Header(e) + entries;
  }

  lemma RenderChainStep(e: ErrorValue, i: nat)
    requires i < |e.chain|
    ensures RenderChain(e, i + 1) == RenderChain(e, i) + (Render(e.chain[i]) + "\n")
  {
  }

  lemma {:induction false} RenderChainAgrees(e: ErrorValue, f: ErrorValue, n: nat)
    requires n <= |e.chain| && n <= |f.chain|
    requires e.chain[..n] == f.chain[..n]
    ensures RenderChain(e, n) == RenderChain(f, n)
  {
    if n > 0 {
      assert e.chain[..n - 1] == e.chain[..n][..n - 1];
      assert f.chain[..n - 1] == f.chain[..n][..n - 1];
      assert e.chain[n - 1] == e.chain[..n][n - 1];
      assert f.chain[n - 1] == f.chain[..n][n - 1];
      RenderChainAgrees(e, f, n - 1);
    }
  }

  /** Attaching only adds text: the rendering grows by the attached record's rendering and a newline. */
  lemma RenderAttached(e: ErrorValue, other: ErrorValue)
    ensures Render(Attached(e, other)) == Render(e) + Render(other) + "\n"
  {
    var a := Attached(e, other);
    RenderChainAgrees(e, a, |e.chain|);
    assert a.chain[..|e.chain|] == e.chain[..|e.chain|];
  }

  /** The code written in the first line reads back, with `atoi`, as the record's code. */
  lemma RenderedCodeReadsBack(e: ErrorValue)
    ensures Atoi(Render(e)[|"Error code: "|..]) == e.code
  {
    var tail := RenderChain(e, |e.chain|);
    assert Render(e) == Header(e) + tail;
    HeaderStartsWithCode(e, tail);
    AtoiReadsDecimalPrefix(e.code, HeaderRest(e) + tail);
  }

  /** What follows the code in the header. */
  function HeaderRest(e: ErrorValue): string {
    ". Error text: " + e.text + "\n" + "Underlying error codes: " + "\n"
  }

  lemma HeaderStartsWithCode(e: ErrorValue, tail: string)
    ensures (Header(e) + tail)[|"Error code: "|..] == IntToDecimal(e.code) + (HeaderRest(e) + tail)
    ensures (HeaderRest(e) + tail)[0] == '.'
  {
    assert Header(e) + tail == "Error code: " + (IntToDecimal(e.code) + (HeaderRest(e) + tail));
  }

  /** An `attach_or_create` with code 0 on a record with code 0 leaves it in the "no error" state, so the next call replaces it. */
  lemma ZeroCodeKeepsNoError(e: ErrorValue, s: string, code: int, s': string)
    requires e.code == 0
    ensures AttachOrCreated(e, 0, s).code == 0
    ensures AttachOrCreated(AttachOrCreated(e, 0, s), code, s') == ErrorValue(code, s', [])
  {
  }

  /** Once a record holds a non-zero code, every later `attach_or_create` keeps all that came before and adds one entry. */
  lemma {:induction false} AttachOrCreateKeepsCauses(e: ErrorValue, calls: seq<(int, string)>)
    requires e.code != 0
    decreases |calls|
    ensures var r := AttachAll(e, calls);
      r.code == e.code && r.text == e.text && |r.chain| == |e.chain| + |calls|
      && r.chain[..|e.chain|] == e.chain
      && forall i | 0 <= i < |calls| :: r.chain[|e.chain| + i] == ErrorValue(calls[i].0, calls[i].1, [])
  {
    if calls != [] {
      var e' := AttachOrCreated(e, calls[0].0, calls[0].1);
      AttachOrCreateKeepsCauses(e', calls[1..]);
      var r := AttachAll(e', calls[1..]);
      assert r.chain[..|e'.chain|][..|e.chain|] == r.chain[..|e.chain|];
      forall i | 0 <= i < |calls|
        ensures r.chain[|e.chain| + i] == ErrorValue(calls[i].0, calls[i].1, [])
      {
        if i == 0 {
          assert r.chain[|e.chain|] == r.chain[..|e'.chain|][|e.chain|];
        } else {
          assert calls[i] == calls[1..][i - 1];
        }
      }
    }
  }

  /** A run of `attach_or_create` calls, in order. */
  function AttachAll(e: ErrorValue, calls: seq<(int, string)>): ErrorValue
    decreases |calls|
  {
    if calls == [] then e else AttachAll(AttachOrCreated(e, calls[0].0, calls[0].1), calls[1..])
  }

  /** An `error_code` object: its fields are changed in place by `attach` and `attach_or_create`. */
  class ErrorCode {
    var code: int
    var text: string
    var chain: seq<ErrorValue>

    function Value(): ErrorValue
      reads this
    {
      ErrorValue(code, text, chain)
    }

    /** The default constructor: code 0, empty text, empty chain. */
    constructor ()
      ensures Value() == NoError
    {
      code, text, chain := 0, "", [];
    }

    /** The (code, text) constructor: both stored, chain empty. */
    constructor WithCode(code: int, text: string)
      ensures Value() == ErrorValue(code, text, [])
    {
      this.code, this.text, this.chain := code, text, [];
    }

    /** `attach`: a copy of `other` goes to the end of the chain; code, text and earlier entries stay. */
    method Attach(other: ErrorValue)
      modifies this
      ensures Value() == Attached(old(Value()), other)
    {
      chain := chain + [other];
    }

    /** `attach_or_create`: set the record if it has code 0, otherwise attach a new (code, s) entry. */
    static method AttachOrCreate(err: ErrorCode, code: int, s: string)
      modifies err
      ensures err.Value() == AttachOrCreated(old(err.Value()), code, s)
    {
      if err.code == 0 {
        err.code, err.text, err.chain := code, s, [];
      } else {
        err.Attach(ErrorValue(code, s, []));
      }
    }
  }
}

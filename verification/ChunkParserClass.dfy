/** `HttpResponseParser` while it decodes chunks: `execute` resumes the coroutine once for each
    byte of the caller's buffer, and moves what it has not taken to the front. */
module ChunkParserClass {
  import opened Options
  import opened Varint
  import opened ChunkFormat

  /** `CheckState`; the line and header states are one here. */
  datatype CheckState = BeforeBody | CheckChunk

  lemma FeedNext(p: Parser, b: Bytes, i: nat)
    requires i < |b| && !p.Ended()
    ensures Feed(p, b[i..]) ==
            var q := Step(p, b[i]);
            if q.Ended() then (q, 1) else (Feed(q, b[i + 1..]).0, 1 + Feed(q, b[i + 1..]).1)
  {
    assert b[i..][0] == b[i] && b[i..][1..] == b[i + 1..];
  }

  class ResponseParser {
    var error: bool
    var finish: bool
    var checkState: CheckState
    var phase: Phase
    var body: Bytes
    var response: Option<Bytes>

    ghost function State(): Parser
      reads this
    {
      Parser(phase, body, response, finish, error)
    }

    /** After the header: that it is complete was reported as `m_finish`. */
    constructor ()
      ensures checkState == BeforeBody && finish && !error
    {
      error, finish, checkState := false, true, BeforeBody;
      phase, body, response := Over, [], None;
    }

    method Resume(cur: Byte)
      modifies this
      ensures State() == Step(old(State()), cur) && checkState == old(checkState)
    {
      match phase
      case Size(len) =>
        if 48 <= cur <= 57 {
          phase := Size((len * 16 + (cur as nat - 48)) % WORD);
        } else if 97 <= cur <= 102 {
          phase := Size((len * 16 + (cur as nat - 97 + 10)) % WORD);
        } else if 65 <= cur <= 70 {
          phase := Size((len * 16 + (cur as nat - 65 + 10)) % WORD);
        } else if cur != CR {
          error, phase := true, Over;
        } else {
          phase := SizeLf(len);
        }
      case SizeLf(len) =>
        if cur != LF {
          error, phase := true, Over;
        } else {
          phase := if 0 < len then Data(len, 0) else DataCr(len);
        }
      case Data(len, i) =>
        body := body + [cur];
        phase := if i + 1 < len then Data(len, i + 1) else DataCr(len);
      case DataCr(len) =>
        if cur != CR {
          error, phase := true, Over;
        } else {
          phase := DataLf(len);
        }
      case DataLf(len) =>
        if cur != LF {
          error, phase := true, Over;
        } else if len == 0 {
          response, finish, phase := Some(body), true, Over;
        } else {
          phase := Size(0);
        }
      case Over =>
    }

    /** `execute(data, len, true)`: a first call starts the coroutine. */
    method Execute(data: array<Byte>, len: nat) returns (offset: nat)
      requires len <= data.Length
      requires checkState == CheckChunk ==> !State().Ended()
      requires checkState == BeforeBody ==> !error && response == None
      modifies this, data
      ensures checkState == CheckChunk
      ensures var p := if old(checkState) == CheckChunk then old(State()) else START;
        (State(), offset) == Feed(p, old(data[..len]))
      ensures offset <= len && data[..len - offset] == old(data[offset..len])
    {
      if checkState != CheckChunk {
        checkState, finish := CheckChunk, false;
        phase, body := Size(0), [];
      }
      offset := ResumeEach(data, len);
      Memmove(data, offset, len - offset);
    }

    /** The loop: it is left with the first byte that ends the parser. */
    method ResumeEach(data: array<Byte>, len: nat) returns (offset: nat)
      requires len <= data.Length && !State().Ended()
      modifies this
      ensures (State(), offset) == Feed(old(State()), data[..len]) && checkState == old(checkState)
    {
      offset := 0;
      var i := 0;
      ghost var start, bytes := State(), data[..len];
      while i < len
        invariant 0 <= i == offset <= len && checkState == old(checkState) && !State().Ended()
        invariant Feed(start, bytes) == (Feed(State(), bytes[i..]).0, i + Feed(State(), bytes[i..]).1)
      {
        FeedNext(State(), bytes, i);
        Resume(data[i]);
        offset := offset + 1;
        i := i + 1;
        if error || finish {
          return;
        }
      }
    }

    /** `memmove(data, data + from, count)`. */
    method Memmove(data: array<Byte>, from: nat, count: nat)
      requires from + count <= data.Length
      modifies data
      ensures data[..count] == old(data[from..from + count])
    {
      forall j | 0 <= j < count {
        data[j] := data[from + j];
      }
    }
  }
}

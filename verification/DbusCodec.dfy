/**
 Requests and request parameters as arguments of D-Bus messages. A message is the list of its
 typed arguments; integers of every width travel as unsigned 64-bit words, enumerators as
 bytes, and strings end at their first NUL ("Basic types" in the D-Bus Specification).
 */
module DbusCodec {
  import opened TrustTypes
  import opened SqliteStore

  datatype Value =
    | Byte(byte: int)
    | Uint64(word: uint64)
    | Int64(number: int64)
    | Text(text: string)
    | ObjectPath(path: string)

  datatype Decoded<T> = Fault | Decoded(value: T, rest: seq<Value>)

  function AnswerByte(a: Answer): int {
    match a case Denied => 0 case Granted => 1
  }

  /** Bytes beyond the enumerators have no meaning. */
  function DecodeAnswer(items: seq<Value>): Decoded<Answer> {
    if items == [] || !items[0].Byte? then Fault
    else if items[0].byte == 0 then Decoded(Denied, items[1..])
    else if items[0].byte == 1 then Decoded(Granted, items[1..])
    else Fault
  }

  function StatusByte(s: Status): int {
    match s case Armed => 0 case HasMoreResults => 1 case Eor => 2 case Error => 3
  }

  function DecodeStatus(items: seq<Value>): Decoded<Status> {
    if items == [] || !items[0].Byte? then Fault
    else match items[0].byte
      case 0 => Decoded(Armed, items[1..])
      case 1 => Decoded(HasMoreResults, items[1..])
      case 2 => Decoded(Eor, items[1..])
      case 3 => Decoded(Error, items[1..])
      case _ => Fault
  }

  function DecodeWord(items: seq<Value>): Decoded<uint64> {
    if items == [] || !items[0].Uint64? then Fault else Decoded(items[0].word, items[1..])
  }

  function DecodeNumber(items: seq<Value>): Decoded<int64> {
    if items == [] || !items[0].Int64? then Fault else Decoded(items[0].number, items[1..])
  }

  function DecodeText(items: seq<Value>): Decoded<string> {
    if items == [] || !items[0].Text? then Fault else Decoded(items[0].text, items[1..])
  }

  function EncodeText(s: string): Value {
    Text(CString(s))
  }

  function EncodeRequest(r: Request): seq<Value> {
    [EncodeText(r.from), Uint64(r.feature), Uint64(Unsigned64(r.when)), Byte(AnswerByte(r.answer))]
  }

  function DecodeRequest(items: seq<Value>): Decoded<Request> {
    var from := DecodeText(items);
    if from.Fault? then Fault else
    var feature := DecodeWord(from.rest);
    if feature.Fault? then Fault else
    var when := DecodeWord(feature.rest);
    if when.Fault? then Fault else
    var answer := DecodeAnswer(when.rest);
    if answer.Fault? then Fault
    else Decoded(Request(from.value, feature.value, Narrow64(when.value), answer.value), answer.rest)
  }

  /** User ids widen from 32 unsigned, process ids from 32 signed bits. */
  function EncodeParameters(p: RequestParameters): seq<Value> {
    [Uint64(p.uid), Uint64(Unsigned64(p.pid)), EncodeText(p.id), Uint64(p.feature), EncodeText(p.description)]
  }

  function DecodeParameters(items: seq<Value>): Decoded<RequestParameters> {
    var uid := DecodeWord(items);
    if uid.Fault? then Fault else
    var pid := DecodeWord(uid.rest);
    if pid.Fault? then Fault else
    var id := DecodeText(pid.rest);
    if id.Fault? then Fault else
    var feature := DecodeWord(id.rest);
    if feature.Fault? then Fault else
    var description := DecodeText(feature.rest);
    if description.Fault? then Fault
    else Decoded(RequestParameters(Unsigned32(uid.value), Narrow32(pid.value), id.value, feature.value,
                                   description.value), description.rest)
  }

  lemma WordRestoresPid(pid: int32)
    ensures Narrow32(Unsigned64(pid)) == pid
  {
    assert Unsigned64(pid) == if pid < 0 then pid + 0x1_0000_0000_0000_0000 else pid;
  }

  lemma WordRestoresTime(when: int64)
    ensures Narrow64(Unsigned64(when)) == when
  {
    assert Unsigned64(when) == if when < 0 then when + 0x1_0000_0000_0000_0000 else when;
  }

  /** Decoding what was encoded, whatever follows it, gives back all but what lies behind a NUL. */
  lemma DecodeEncodedRequest(r: Request, suffix: seq<Value>)
    ensures DecodeRequest(EncodeRequest(r) + suffix) == Decoded(r.(from := CString(r.from)), suffix)
  {
    WordRestoresTime(r.when);
    var items := EncodeRequest(r) + suffix;
    assert items[1..][1..][1..][1..] == suffix;
  }

  lemma DecodeEncodedParameters(p: RequestParameters, suffix: seq<Value>)
    ensures DecodeParameters(EncodeParameters(p) + suffix)
            == Decoded(p.(id := CString(p.id), description := CString(p.description)), suffix)
  {
    WordRestoresPid(p.pid);
    var items := EncodeParameters(p) + suffix;
    assert items[1..][1..][1..][1..][1..] == suffix;
  }

  /** The layout other programs on the bus see: the types and order of the arguments, and the numbers. */
  lemma RequestLayout(r: Request)
    requires NulFree(r.from)
    ensures |EncodeRequest(r)| == 4 && EncodeRequest(r)[0] == Text(r.from) && EncodeRequest(r)[1] == Uint64(r.feature)
    ensures EncodeRequest(r)[2].Uint64? && (EncodeRequest(r)[2].word - r.when) % 0x1_0000_0000_0000_0000 == 0
    ensures EncodeRequest(r)[3] == Byte(0) <==> r.answer == Denied
    ensures EncodeRequest(r)[3] == Byte(1) <==> r.answer == Granted
  {
  }

  lemma ParametersLayout(p: RequestParameters)
    requires NulFree(p.id) && NulFree(p.description)
    ensures var items := EncodeParameters(p);
            && |items| == 5 && items[0] == Uint64(p.uid) && items[2] == Text(p.id)
            && items[1].Uint64? && (items[1].word - p.pid) % 0x1_0000_0000_0000_0000 == 0
            && items[3] == Uint64(p.feature) && items[4] == Text(p.description)
  {
  }

  lemma StatusNumbers()
    ensures DecodeStatus([Byte(0)]) == Decoded(Armed, []) && DecodeStatus([Byte(1)]) == Decoded(HasMoreResults, [])
    ensures DecodeStatus([Byte(2)]) == Decoded(Eor, []) && DecodeStatus([Byte(3)]) == Decoded(Error, [])
  {
  }

  /** A request survives the round trip exactly when its application id has no NUL. */
  lemma RequestRoundTripIff(r: Request, suffix: seq<Value>)
    ensures DecodeRequest(EncodeRequest(r) + suffix) == Decoded(r, suffix) <==> NulFree(r.from)
  {
    DecodeEncodedRequest(r, suffix);
  }

  /** Parameters survive exactly when neither string has a NUL, negative pids included. */
  lemma ParametersRoundTripIff(p: RequestParameters, suffix: seq<Value>)
    ensures DecodeParameters(EncodeParameters(p) + suffix) == Decoded(p, suffix)
            <==> NulFree(p.id) && NulFree(p.description)
  {
    DecodeEncodedParameters(p, suffix);
  }

  lemma StatusRoundTrip(s: Status, suffix: seq<Value>)
    ensures DecodeStatus([Byte(StatusByte(s))] + suffix) == Decoded(s, suffix)
  {
    assert ([Byte(StatusByte(s))] + suffix)[1..] == suffix;
  }

  /******* Writers and readers *******/

  class Writer {
    var items: seq<Value>

    constructor ()
      ensures items == []
    {
      items := [];
    }

    method PushByte(b: int)
      modifies this
      ensures items == old(items) + [Byte(b)]
    {
      items := items + [Byte(b)];
    }

    method PushUint64(x: int)
      modifies this
      ensures items == old(items) + [Uint64(Unsigned64(x))]
    {
      items := items + [Uint64(Unsigned64(x))];
    }

    method PushString(s: string)
      modifies this
      ensures items == old(items) + [EncodeText(s)]
    {
      items := items + [EncodeText(s)];
    }

    method PushRequest(r: Request)
      modifies this
      ensures items == old(items) + EncodeRequest(r)
    {
      PushString(r.from);
      PushUint64(r.feature);
      PushUint64(r.when);
      PushByte(AnswerByte(r.answer));
    }

    method PushParameters(p: RequestParameters)
      modifies this
      ensures items == old(items) + EncodeParameters(p)
    {
      PushUint64(p.uid);
      PushUint64(p.pid);
      PushString(p.id);
      PushUint64(p.feature);
      PushString(p.description);
    }
  }

  class Reader {
    var items: seq<Value>

    constructor (items: seq<Value>)
      ensures this.items == items
    {
      this.items := items;
    }

    method PopUint64() returns (d: Decoded<uint64>)
      modifies this
      ensures d == DecodeWord(old(items)) && (d.Decoded? ==> items == d.rest)
    {
      d := DecodeWord(items);
      if d.Decoded? { items := d.rest; }
    }

    method PopString() returns (d: Decoded<string>)
      modifies this
      ensures d == DecodeText(old(items)) && (d.Decoded? ==> items == d.rest)
    {
      d := DecodeText(items);
      if d.Decoded? { items := d.rest; }
    }

    method PopInt64() returns (d: Decoded<int64>)
      modifies this
      ensures d == DecodeNumber(old(items)) && (d.Decoded? ==> items == d.rest)
    {
      d := DecodeNumber(items);
      if d.Decoded? { items := d.rest; }
    }

    method PopAnswer() returns (d: Decoded<Answer>)
      modifies this
      ensures d == DecodeAnswer(old(items)) && (d.Decoded? ==> items == d.rest)
    {
      d := DecodeAnswer(items);
      if d.Decoded? { items := d.rest; }
    }

    /** Reads the fields one by one; a fault leaves the reader where it happened. */
    method PopRequest() returns (d: Decoded<Request>)
      modifies this
      ensures d == DecodeRequest(old(items)) && (d.Decoded? ==> items == d.rest)
    {
      var from := PopString();
      if from.Fault? { return Fault; }
      var feature := PopUint64();
      if feature.Fault? { return Fault; }
      var when := PopUint64();
      if when.Fault? { return Fault; }
      var answer := PopAnswer();
      if answer.Fault? { return Fault; }
      d := Decoded(Request(from.value, feature.value, Narrow64(when.value), answer.value), items);
    }

    method PopParameters() returns (d: Decoded<RequestParameters>)
      modifies this
      ensures d == DecodeParameters(old(items)) && (d.Decoded? ==> items == d.rest)
    {
      var uid := PopUint64();
      if uid.Fault? { return Fault; }
      var pid := PopUint64();
      if pid.Fault? { return Fault; }
      var id := PopString();
      if id.Fault? { return Fault; }
      var feature := PopUint64();
      if feature.Fault? { return Fault; }
      var description := PopString();
      if description.Fault? { return Fault; }
      d := Decoded(RequestParameters(Unsigned32(uid.value), Narrow32(pid.value), id.value, feature.value,
                                     description.value), items);
    }
  }
}

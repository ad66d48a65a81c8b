/** `wire::json_writer`: emits JSON one token at a time into `bytes_`
    through a rapidjson writer. The writer is modelled as a sink of tokens;
    rapidjson's textual formatting is left out. */
module JsonWriter {
  import opened Wrappers
  import opened Bytes
  import opened WireField
  import opened WireInteger

  /** One call into rapidjson's writer. */
  datatype Event =
    | StartArrayEvent
    | EndArrayEvent
    | StartObjectEvent
    | EndObjectEvent
    /** `Key(str, length)`: a member name. */
    | KeyEvent(name: seq<byte>)
    /** `String(str, length)`. */
    | StringEvent(text: seq<byte>)
    /** `Int` / `Int64`. */
    | IntEvent(i: int)
    /** `Uint` / `Uint64`. */
    | UintEvent(u: int)

  /** How much an event changes the number of open arrays and objects. */
  function Delta(e: Event): int {
    match e
    case StartArrayEvent => 1
    case StartObjectEvent => 1
    case EndArrayEvent => -1
    case EndObjectEvent => -1
    case _ => 0
  }

  /** Arrays and objects opened and not closed by `es`: the running sum
      of the deltas. */
  function Nesting(es: seq<Event>): int {
    NestingOf(es, |es|)
  }

  /** The running sum of the deltas of the first `n` events. */
  function NestingOf(es: seq<Event>, n: nat): int
    requires n <= |es|
  {
    if n == 0 then 0 else NestingOf(es, n - 1) + Delta(es[n - 1])
  }

  /** Appending leaves the sums over the existing events alone. */
  lemma {:induction false} NestingOfAppend(es: seq<Event>, more: seq<Event>, n: nat)
    requires n <= |es|
    ensures NestingOf(es + more, n) == NestingOf(es, n)
  {
    if n > 0 {
      NestingOfAppend(es, more, n - 1);
    }
  }

  lemma NestingSnoc(es: seq<Event>, e: Event)
    ensures Nesting(es + [e]) == Nesting(es) + Delta(e)
  {
    NestingOfAppend(es, [e], |es|);
  }

  /** The exception `take_json` throws on an incomplete tree. */
  datatype LogicError = LogicError(what: string)

  class Writer {
    /** `bytes_`: everything written since the last `take_json`. */
    var bytes: seq<Event>
    /** The depth of rapidjson's level stack. */
    var open: nat
    /** rapidjson's `hasRoot_`: a value has been started at the top level. */
    var hasRoot: bool

    /** The level stack counts the arrays and objects `bytes` leaves open,
        and a root exists exactly when something has been written. */
    ghost predicate Valid()
      reads this
    {
      open == Nesting(bytes) && (hasRoot <==> |bytes| > 0)
    }

    constructor()
      ensures Valid() && bytes == [] && open == 0 && !hasRoot
    {
      bytes := [];
      open := 0;
      hasRoot := false;
    }

    /** rapidjson's `IsComplete`: one root value, fully closed. */
    function IsComplete(): (complete: bool)
      reads this
      ensures Valid() ==> (complete <==> |bytes| > 0 && Nesting(bytes) == 0)
    {
      hasRoot && open == 0
    }

    /** rapidjson's `Prefix`: the first value at the top level is the root. */
    method Prefix()
      modifies this`hasRoot
      ensures hasRoot == (old(hasRoot) || open == 0)
    {
      if open == 0 {
        hasRoot := true;
      }
    }

    /** Append a token that neither opens nor closes a scope. */
    method Scalar(e: Event)
      requires Valid() && Delta(e) == 0
      modifies this
      ensures Valid()
      ensures bytes == old(bytes) + [e] && open == old(open)
      ensures hasRoot == (old(hasRoot) || old(open) == 0)
    {
      Prefix();
      NestingSnoc(bytes, e);
      bytes := bytes + [e];
    }

    /** `integer(int)` and `integer(intmax_t)`: emitted unchanged as a
        64-bit signed value. */
    method Integer(source: int)
      requires InRange(Intmax, source)
      requires Valid()
      modifies this
      ensures Valid()
      ensures bytes == old(bytes) + [IntEvent(source)] && open == old(open)
      ensures hasRoot == (old(hasRoot) || old(open) == 0)
    {
      Scalar(IntEvent(source));
    }

    /** `unsigned_integer(unsigned)` and `unsigned_integer(uintmax_t)`:
        emitted unchanged as a 64-bit unsigned value. */
    method UnsignedInteger(source: int)
      requires InRange(Uintmax, source)
      requires Valid()
      modifies this
      ensures Valid()
      ensures bytes == old(bytes) + [UintEvent(source)] && open == old(open)
      ensures hasRoot == (old(hasRoot) || old(open) == 0)
    {
      Scalar(UintEvent(source));
    }

    /** `string(span)`: all `source.size()` characters, as one string. */
    method String(source: seq<byte>)
      requires Valid()
      modifies this
      ensures Valid()
      ensures bytes == old(bytes) + [StringEvent(source)] && open == old(open)
      ensures hasRoot == (old(hasRoot) || old(open) == 0)
    {
      Scalar(StringEvent(source));
    }

    /** `key(const char*)`: the `strlen(str)` bytes before the first NUL. */
    method Key(str: seq<byte>)
      requires Valid()
      modifies this
      ensures Valid()
      ensures bytes == old(bytes) + [KeyEvent(CString(str))] && open == old(open)
      ensures hasRoot == (old(hasRoot) || old(open) == 0)
    {
      var length := Strlen(str);
      Scalar(KeyEvent(str[..length]));
    }

    method StartArray()
      requires Valid()
      modifies this
      ensures Valid()
      ensures bytes == old(bytes) + [StartArrayEvent] && open == old(open) + 1
      ensures hasRoot == (old(hasRoot) || old(open) == 0)
    {
      Prefix();
      NestingSnoc(bytes, StartArrayEvent);
      bytes := bytes + [StartArrayEvent];
      open := open + 1;
    }

    /** rapidjson requires an open level. */
    method EndArray()
      requires Valid() && open > 0
      modifies this
      ensures Valid()
      ensures bytes == old(bytes) + [EndArrayEvent] && open == old(open) - 1 && hasRoot == old(hasRoot)
    {
      NestingSnoc(bytes, EndArrayEvent);
      bytes := bytes + [EndArrayEvent];
      open := open - 1;
    }

    method StartObject()
      requires Valid()
      modifies this
      ensures Valid()
      ensures bytes == old(bytes) + [StartObjectEvent] && open == old(open) + 1
      ensures hasRoot == (old(hasRoot) || old(open) == 0)
    {
      Prefix();
      NestingSnoc(bytes, StartObjectEvent);
      bytes := bytes + [StartObjectEvent];
      open := open + 1;
    }

    /** rapidjson requires an open level. */
    method EndObject()
      requires Valid() && open > 0
      modifies this
      ensures Valid()
      ensures bytes == old(bytes) + [EndObjectEvent] && open == old(open) - 1 && hasRoot == old(hasRoot)
    {
      NestingSnoc(bytes, EndObjectEvent);
      bytes := bytes + [EndObjectEvent];
      open := open - 1;
    }

    /** `take_json`: refuses an incomplete tree; otherwise hands out all
        bytes written so far and resets the writer for reuse. */
    method TakeJson() returns (r: Result<seq<Event>, LogicError>)
      requires Valid()
      modifies this
      ensures Valid()
      ensures !old(IsComplete()) ==>
        r == Err(LogicError("json_writer::take_json() failed with incomplete JSON tree"))
        && bytes == old(bytes) && open == old(open) && hasRoot == old(hasRoot)
      ensures old(IsComplete()) ==> r == Ok(old(bytes)) && bytes == [] && open == 0 && !hasRoot
    {
      if !IsComplete() {
        return Err(LogicError("json_writer::take_json() failed with incomplete JSON tree"));
      }
      r := Ok(bytes);
      bytes := [];
      open := 0;
      hasRoot := false;
    }
  }
}

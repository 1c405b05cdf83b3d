/**
 * The parser's context stack: each context knows its parent, the message
 * type it reads, where that message ends in the input, and owns a single
 * child slot that is created on first use and reset on every later use.
 * `toString` renders the context as one step of a JSON-path-like location.
 */
module ReadContext {
  import opened Wire
  import opened OrderedMap
  import opened Descriptors

  /** `TYPE_ROOT`, `TYPE_ARRAY` and `TYPE_OBJECT` of the stream-context base class. */
  datatype ContextKind = Root | Array | Object

  /** `Integer.MAX_VALUE`, the end offset of the root context. */
  const IntegerMaxValue: Int32 := 0x7fff_ffff

  /*
   * Rendering of a context (`toString`) and its inverse.
   */

  /** The decimal digit character of `d`. */
  function DigitChar(d: nat): (c: char)
    requires d < 10
    ensures '0' <= c <= '9' && c as int - '0' as int == d
  {
    ('0' as int + d) as char
  }

  predicate IsDigit(c: char)
  {
    '0' <= c <= '9'
  }

  /** The decimal representation of `n`, without sign or leading zeros. */
  function Digits(n: nat): (s: string)
    ensures |s| >= 1
    ensures forall i :: 0 <= i < |s| ==> IsDigit(s[i])
    decreases n
  {
    if n < 10 then [DigitChar(n)] else Digits(n / 10) + [DigitChar(n % 10)]
  }

  /** The value of a string of decimal digits. */
  function ParseDecimal(s: string): nat
    requires forall i :: 0 <= i < |s| ==> IsDigit(s[i])
    decreases |s|
  {
    if s == [] then 0
    else
      assert IsDigit(s[|s| - 1]);
      ParseDecimal(s[..|s| - 1]) * 10 + (s[|s| - 1] as int - '0' as int)
  }

  lemma {:induction false} ParseDecimalDigits(n: nat)
    ensures ParseDecimal(Digits(n)) == n
    decreases n
  {
    if n >= 10 {
      var s := Digits(n);
      assert s[..|s| - 1] == Digits(n / 10);
      ParseDecimalDigits(n / 10);
    }
  }

  /**
   * The quoting of a name inside `{"…"}`: a double quote or a backslash is
   * preceded by a backslash, every other character is kept.
   */
  function Escape(s: string): (e: string)
    ensures |e| >= |s|
  {
    if s == [] then []
    else (if s[0] == '"' || s[0] == '\\' then ['\\', s[0]] else [s[0]]) + Escape(s[1..])
  }

  /** Reads a quoted name up to its closing, unescaped double quote; returns the name and what follows the quote. */
  function ParseQuoted(e: string): Option<(string, string)>
    decreases |e|
  {
    if e == [] then None
    else if e[0] == '"' then Some(([], e[1..]))
    else if e[0] == '\\' then
      if |e| < 2 then None
      else match ParseQuoted(e[2..])
        case None => None
        case Some(r) => Some(([e[1]] + r.0, r.1))
    else match ParseQuoted(e[1..])
      case None => None
      case Some(r) => Some(([e[0]] + r.0, r.1))
  }

  /** Whatever the name holds, its escaped form ends exactly at the closing quote. */
  lemma {:induction false} ParseQuotedEscape(s: string, rest: string)
    ensures ParseQuoted(Escape(s) + ['"'] + rest) == Some((s, rest))
    decreases |s|
  {
    if s == [] {
      assert Escape(s) + ['"'] + rest == ['"'] + rest;
    } else {
      var head := if s[0] == '"' || s[0] == '\\' then ['\\', s[0]] else [s[0]];
      var e := Escape(s) + ['"'] + rest;
      assert e == head + (Escape(s[1..]) + ['"'] + rest);
      ParseQuotedEscape(s[1..], rest);
      if s[0] == '"' || s[0] == '\\' {
        assert e[2..] == Escape(s[1..]) + ['"'] + rest;
      } else {
        assert e[1..] == Escape(s[1..]) + ['"'] + rest;
      }
      assert [s[0]] + s[1..] == s;
    }
  }

  /** One step of a location path, as `toString` renders it. */
  datatype PathStep = RootStep | IndexStep(index: nat) | FieldStep(name: Option<string>)

  /** `toString`: "/" for the root, "[i]" for an array, `{"name"}` or `{?}` for an object. */
  function Describe(kind: ContextKind, index: nat, name: Option<string>): string
  {
    match kind
      case Root => "/"
      case Array => "[" + Digits(index) + "]"
      case Object =>
        match name
          case Some(n) => "{\"" + Escape(n) + "\"}"
          case None => "{?}"
  }

  /** Reads a rendered step back. */
  function ParseStep(r: string): Option<PathStep>
  {
    if r == [] then None
    else if r[0] == '/' then (if |r| == 1 then Some(RootStep) else None)
    else if r[0] == '[' then
      if |r| >= 3 && r[|r| - 1] == ']' && forall i :: 1 <= i < |r| - 1 ==> IsDigit(r[i]) then
        Some(IndexStep(ParseDecimal(r[1..|r| - 1])))
      else None
    else if r[0] == '{' && |r| >= 2 then
      if r[1] == '?' then (if |r| == 3 && r[2] == '}' then Some(FieldStep(None)) else None)
      else if r[1] == '"' then
        match ParseQuoted(r[2..])
          case Some(q) => if q.1 == ['}'] then Some(FieldStep(Some(q.0))) else None
          case None => None
      else None
    else None
  }

  /** The step a context of this kind, index and name stands for. */
  function StepOf(kind: ContextKind, index: nat, name: Option<string>): PathStep
  {
    match kind
      case Root => RootStep
      case Array => IndexStep(index)
      case Object => FieldStep(name)
  }

  /** The rendering is unambiguous: reading it back gives the kind with its index or name. */
  lemma ParseDescribe(kind: ContextKind, index: nat, name: Option<string>)
    ensures ParseStep(Describe(kind, index, name)) == Some(StepOf(kind, index, name))
  {
    var r := Describe(kind, index, name);
    match kind
    case Root =>
    case Array =>
      var d := Digits(index);
      assert r[1..|r| - 1] == d;
      forall i | 1 <= i < |r| - 1
        ensures IsDigit(r[i])
      {
        assert r[i] == d[i - 1];
      }
      ParseDecimalDigits(index);
    case Object =>
      match name
      case None =>
      case Some(n) =>
        assert r[2..] == Escape(n) + ['"'] + ['}'];
        ParseQuotedEscape(n, ['}']);
  }

  /** `getCurrentIndex` of the stream-context base class: the index, or 0 while it is still -1. */
  function CurrentIndex(index: int): (i: nat)
    ensures index >= 0 ==> i == index
    ensures index < 0 ==> i == 0
  {
    if index < 0 then 0 else index
  }

  class ProtobufReadContext {
    /** The enclosing context; null for the root. */
    const parent: ProtobufReadContext?
    /** The message read in this context (none at the root). */
    var messageType: Option<MsgId>
    var kind: ContextKind
    /** Offset in the input where the message of this context ends. */
    var endOffset: Int32
    var index: int
    var currentName: Option<string>
    /** The single reusable child slot. */
    var child: ProtobufReadContext?

    /** A context is not its own parent, and its child slot points back to it. */
    predicate Valid()
      reads this
    {
      parent != this && (child != null ==> child.parent == this)
    }

    constructor (p: ProtobufReadContext?, mt: Option<MsgId>, k: ContextKind, end: Int32)
      ensures parent == p && messageType == mt && kind == k && endOffset == end
      ensures index == -1 && currentName == None && child == null
      ensures Valid()
    {
      parent := p;
      messageType := mt;
      kind := k;
      endOffset := end;
      index := -1;
      currentName := None;
      child := null;
    }

    /** `reset`: new type, kind and end offset; index back to -1 and no current name. The child slot is kept. */
    method Reset(mt: Option<MsgId>, k: ContextKind, end: Int32)
      modifies this
      ensures messageType == mt && kind == k && endOffset == end
      ensures index == -1 && currentName == None
      ensures child == old(child)
    {
      messageType := mt;
      kind := k;
      index := -1;
      currentName := None;
      endOffset := end;
    }

    /** `createRootContext`: kind root, no parent, no message type, end offset `Integer.MAX_VALUE`. */
    static method CreateRootContext() returns (ctx: ProtobufReadContext)
      ensures fresh(ctx) && ctx.Valid()
      ensures ctx.parent == null && ctx.kind == Root && ctx.messageType == None
      ensures ctx.endOffset == IntegerMaxValue && ctx.index == -1 && ctx.currentName == None
      ensures ctx.child == null
    {
      ctx := new ProtobufReadContext(null, None, Root, IntegerMaxValue);
    }

    /**
     * `createChildArrayContext()`: the child slot, created on first use and
     * reset afterwards, as an array context with this context's message
     * type and end offset.
     */
    method CreateChildArrayContext() returns (ctx: ProtobufReadContext)
      requires Valid()
      modifies this, child
      ensures ctx == child && ctx.parent == this && Valid() && ctx != this
      ensures old(child) == null ==> fresh(ctx) && ctx.child == null
      ensures old(child) != null ==> ctx == old(child) && ctx.child == old(child.child)
      ensures ctx.kind == Array && ctx.messageType == messageType && ctx.endOffset == endOffset
      ensures ctx.index == -1 && ctx.currentName == None
      ensures messageType == old(messageType) && kind == old(kind) && endOffset == old(endOffset)
      ensures index == old(index) && currentName == old(currentName)
    {
      var c := child;
      if c == null {
        ctx := new ProtobufReadContext(this, messageType, Array, endOffset);
        child := ctx;
      } else {
        ctx := c;
        ctx.Reset(messageType, Array, endOffset);
      }
    }

    /**
     * `createChildArrayContext(endOffset)`, as written: a reused child gets
     * the given end offset, but a child created on the first call gets 0.
     */
    method CreateChildArrayContextAt(end: Int32) returns (ctx: ProtobufReadContext)
      requires Valid()
      modifies this, child
      ensures ctx == child && ctx.parent == this && Valid() && ctx != this
      ensures old(child) == null ==> fresh(ctx) && ctx.child == null && ctx.endOffset == 0
      ensures old(child) != null ==> ctx == old(child) && ctx.child == old(child.child) && ctx.endOffset == end
      ensures ctx.kind == Array && ctx.messageType == messageType
      ensures ctx.index == -1 && ctx.currentName == None
      ensures messageType == old(messageType) && kind == old(kind) && endOffset == old(endOffset)
      ensures index == old(index) && currentName == old(currentName)
    {
      var c := child;
      if c == null {
        ctx := new ProtobufReadContext(this, messageType, Array, 0);
        child := ctx;
      } else {
        ctx := c;
        ctx.Reset(messageType, Array, end);
      }
    }

    /** `createChildArrayContext(endOffset)` as evidently intended: the child gets the given end offset on every call. */
    method CreateChildArrayContextAtFixed(end: Int32) returns (ctx: ProtobufReadContext)
      requires Valid()
      modifies this, child
      ensures ctx == child && ctx.parent == this && Valid() && ctx != this
      ensures old(child) == null ==> fresh(ctx) && ctx.child == null
      ensures old(child) != null ==> ctx == old(child) && ctx.child == old(child.child)
      ensures ctx.kind == Array && ctx.messageType == messageType && ctx.endOffset == end
      ensures ctx.index == -1 && ctx.currentName == None
      ensures messageType == old(messageType) && kind == old(kind) && endOffset == old(endOffset)
      ensures index == old(index) && currentName == old(currentName)
    {
      var c := child;
      if c == null {
        ctx := new ProtobufReadContext(this, messageType, Array, end);
        child := ctx;
      } else {
        ctx := c;
        ctx.Reset(messageType, Array, end);
      }
    }

    /** `createChildObjectContext`: the child slot as an object context for the given message type and end offset. */
    method CreateChildObjectContext(mt: Option<MsgId>, end: Int32) returns (ctx: ProtobufReadContext)
      requires Valid()
      modifies this, child
      ensures ctx == child && ctx.parent == this && Valid() && ctx != this
      ensures old(child) == null ==> fresh(ctx) && ctx.child == null
      ensures old(child) != null ==> ctx == old(child) && ctx.child == old(child.child)
      ensures ctx.kind == Object && ctx.messageType == mt && ctx.endOffset == end
      ensures ctx.index == -1 && ctx.currentName == None
      ensures messageType == old(messageType) && kind == old(kind) && endOffset == old(endOffset)
      ensures index == old(index) && currentName == old(currentName)
    {
      var c := child;
      if c == null {
        ctx := new ProtobufReadContext(this, mt, Object, end);
        child := ctx;
        return;
      }
      ctx := c;
      ctx.Reset(mt, Object, end);
    }

    /** `setMessageType`: replaces the message type only. */
    method SetMessageType(mt: Option<MsgId>)
      modifies this
      ensures messageType == mt
      ensures kind == old(kind) && endOffset == old(endOffset) && index == old(index)
      ensures currentName == old(currentName) && child == old(child)
    {
      messageType := mt;
    }

    /** `setCurrentName`: replaces the current name only. */
    method SetCurrentName(name: Option<string>)
      modifies this
      ensures currentName == name
      ensures messageType == old(messageType) && kind == old(kind) && endOffset == old(endOffset)
      ensures index == old(index) && child == old(child)
    {
      currentName := name;
    }

    /** `toString`: one location step that reads back as this context's kind with its index or name. */
    function ToString(): (s: string)
      reads this
      ensures ParseStep(s) == Some(StepOf(kind, CurrentIndex(index), currentName))
    {
      ParseDescribe(kind, CurrentIndex(index), currentName);
      Describe(kind, CurrentIndex(index), currentName)
    }
  }

  /**
   * The first array child created with an explicit end offset gets 0; the
   * same call on the now existing child gets the requested offset.
   */
  method ArrayChildEndOffsets() returns (first: Int32, second: Int32)
    ensures first == 0 && second == 100
  {
    var root := ProtobufReadContext.CreateRootContext();
    var c1 := root.CreateChildArrayContextAt(100);
    first := c1.endOffset;
    var c2 := root.CreateChildArrayContextAt(100);
    second := c2.endOffset;
  }

  /** With the intended behaviour both calls give the requested offset. */
  method ArrayChildEndOffsetsFixed() returns (first: Int32, second: Int32)
    ensures first == 100 && second == 100
  {
    var root := ProtobufReadContext.CreateRootContext();
    var c1 := root.CreateChildArrayContextAtFixed(100);
    first := c1.endOffset;
    var c2 := root.CreateChildArrayContextAtFixed(100);
    second := c2.endOffset;
  }

  /** The factories share one child: an array child and a later object child of the same context are the same instance. */
  method SingleChildSlot() returns (same: bool, parentLinked: bool)
    ensures same && parentLinked
  {
    var root := ProtobufReadContext.CreateRootContext();
    var a := root.CreateChildArrayContext();
    var o := root.CreateChildObjectContext(Some(0), 10);
    same := a == o;
    parentLinked := o.parent == root;
  }
}

/** The server's parameter block: the command-line options from argv[4] on, joined into the
    control message a client receives when its handshake succeeds (build_parameters). */
module Parameters {
  import opened Bytes
  import opened Wrappers

  /** Capacity of the listener's parameter block. */
  const ParametersMax: nat := 1024

  /** A two-byte argument that starts with '-' names an option, such as `-m`. */
  predicate IsOptionFlag(arg: seq<byte>)
  {
    var p := CStr(arg);
    |p| == 2 && p[0] == Dash
  }

  /** The byte written in front of an argument: a space before an option letter, else a comma. */
  function Delimiter(arg: seq<byte>): byte
  {
    if IsOptionFlag(arg) then Space else Comma
  }

  /** The text copied for an argument: the option letter alone for a flag, the whole C string otherwise. */
  function Body(arg: seq<byte>): seq<byte>
  {
    if IsOptionFlag(arg) then CStr(arg)[1..] else CStr(arg)
  }

  /** Everything one argument contributes to the block. */
  function Emitted(arg: seq<byte>): seq<byte>
  {
    [Delimiter(arg)] + Body(arg)
  }

  /** The arguments' contributions laid end to end, in argument order. */
  function Joined(args: seq<seq<byte>>): seq<byte>
  {
    if |args| == 0 then [] else Joined(args[..|args| - 1]) + Emitted(args[|args| - 1])
  }

  /** Where argument `k` starts in the block: after the bytes of the arguments before it. */
  function OffsetOf(args: seq<seq<byte>>, k: nat): nat
    requires k <= |args|
  {
    |Joined(args[..k])|
  }

  /** The number of bytes the arguments occupy, counted argument by argument. */
  function EmittedLength(args: seq<seq<byte>>): nat
  {
    if |args| == 0 then 0 else 1 + |Body(args[0])| + EmittedLength(args[1..])
  }

  /** `j` followed by spaces up to `size`, with the first byte overwritten by the
      control-message marker 0. */
  function Pad(j: seq<byte>, size: nat): (b: seq<byte>)
    requires 0 < size && |j| <= size
    ensures |b| == size
  {
    (j + Spaces(size - |j|))[0 := Nul]
  }

  /** The block as build_parameters leaves it: the joined arguments, padded and marked. */
  function Layout(args: seq<seq<byte>>, size: nat): (b: seq<byte>)
    requires 0 < size && |Joined(args)| <= size
    ensures |b| == size
  {
    Pad(Joined(args), size)
  }

  /** A built block and the offset build_parameters returns (`param_len`). */
  datatype Params = Params(block: seq<byte>, length: nat)

  /** The process exits because the argument at `index` (counted from argv[4]) does not fit. */
  datatype TooLarge = TooLarge(index: nat)

  lemma JoinedStep(args: seq<seq<byte>>, i: nat)
    requires i < |args|
    ensures Joined(args[..i + 1]) == Joined(args[..i]) + Emitted(args[i])
  {
    assert args[..i + 1][..i] == args[..i];
  }

  /** The bytes of the first `k` arguments are a prefix of the bytes of all of them. */
  lemma {:induction false} JoinedPrefix(args: seq<seq<byte>>, k: nat)
    requires k <= |args|
    ensures Joined(args[..k]) <= Joined(args)
    decreases |args|
  {
    if k < |args| {
      var init := args[..|args| - 1];
      assert args[..k] == init[..k];
      JoinedPrefix(init, k);
      assert init == args[..|args| - 1];
    } else {
      assert args[..k] == args;
    }
  }

  /** Copying argument `i`'s bytes to the current offset extends the written prefix to the
      first `i + 1` arguments and keeps the buffer's length. */
  lemma AppendArgument(buf: seq<byte>, args: seq<seq<byte>>, i: nat, e: seq<byte>)
    requires i < |args| && e == Emitted(args[i])
    requires |Joined(args[..i])| + |e| <= |buf|
    requires buf[..|Joined(args[..i])|] == Joined(args[..i])
    ensures var offset := |Joined(args[..i])|;
            var next := buf[..offset] + e + buf[offset + |e|..];
            && |next| == |buf|
            && |Joined(args[..i + 1])| == offset + |e|
            && next[..offset + |e|] == Joined(args[..i + 1])
  {
    JoinedStep(args, i);
    var offset := |Joined(args[..i])|;
    var next := buf[..offset] + e + buf[offset + |e|..];
    assert next[..offset + |e|] == buf[..offset] + e;
  }

  /** The two shapes an argument's contribution can take. */
  lemma EmittedCases(arg: seq<byte>)
    ensures var p := CStr(arg);
            && (|p| == 2 && p[0] == Dash ==> Emitted(arg) == [Space] + p[1..])
            && (!(|p| == 2 && p[0] == Dash) ==> Emitted(arg) == [Comma] + p)
  {
  }

  /** Fills `parameters` (whose length is the C `size`) from the options `args` = argv[4..argc). */
  method BuildParameters(parameters: seq<byte>, args: seq<seq<byte>>) returns (r: Result<Params, TooLarge>)
    requires |parameters| > 0
    ensures r.Ok? <==> |Joined(args)| <= |parameters|
    ensures r.Ok? ==> r.value.length == |Joined(args)| && r.value.block == Layout(args, |parameters|)
    ensures r.Err? ==>
              && r.error.index < |args|
              && OffsetOf(args, r.error.index) <= |parameters| < OffsetOf(args, r.error.index + 1)
  {
    var size := |parameters|;
    var buf := parameters;
    var offset := 0;
    var i := 0;
    assert args[..0] == [];
    while i < |args|
      invariant 0 <= i <= |args|
      invariant |buf| == size
      invariant offset == |Joined(args[..i])| <= size
      invariant buf[..offset] == Joined(args[..i])
    {
      var fits;
      fits, buf, offset := AppendParameter(buf, offset, args, i);
      if !fits {
        Overflow(args, i, size);
        return Err(TooLarge(i));
      }
      i := i + 1;
    }
    var block := Finish(buf, offset, args);
    LayoutOfBytes(args, size, block);
    return Ok(Params(block, offset));
  }

  /** An argument that does not fit means all of them do not fit. */
  lemma Overflow(args: seq<seq<byte>>, i: nat, size: nat)
    requires i < |args| && size < |Joined(args[..i + 1])|
    ensures size < |Joined(args)|
  {
    JoinedPrefix(args, i + 1);
  }

  /** The end of build_parameters: spaces from `offset` to the end, then the marker in byte 0. */
  method Finish(buf: seq<byte>, offset: nat, args: seq<seq<byte>>) returns (block: seq<byte>)
    requires 0 < |buf| && offset == |Joined(args[..|args|])| <= |buf|
    requires buf[..offset] == Joined(args[..|args|])
    ensures offset == |Joined(args)|
    ensures |block| == |buf|
    ensures block[0] == Nul
    ensures forall i :: 0 < i < offset ==> block[i] == Joined(args)[i]
    ensures forall i :: 0 < i && offset <= i < |buf| ==> block[i] == Space
  {
    assert args[..|args|] == args;
    block := buf[..offset] + Spaces(|buf| - offset);
    block := block[0 := Nul];
  }

  /** A block with the marker in byte 0, the joined arguments after it up to their end and
      spaces from there on is the reference layout. */
  lemma LayoutOfBytes(args: seq<seq<byte>>, size: nat, block: seq<byte>)
    requires 0 < size && |Joined(args)| <= size && |block| == size
    requires block[0] == Nul
    requires forall i :: 0 < i < |Joined(args)| ==> block[i] == Joined(args)[i]
    requires forall i :: 0 < i && |Joined(args)| <= i < size ==> block[i] == Space
    ensures block == Layout(args, size)
  {
    LayoutKeepsJoined(args, size);
    LayoutMarkerAndPadding(args, size);
    var layout := Layout(args, size);
    assert forall i :: 0 <= i < size ==> block[i] == layout[i];
  }

  /** One turn of build_parameters' loop: argument `i` is written at `offset` behind its
      delimiter, unless it would reach the end of the block. */
  method AppendParameter(buf: seq<byte>, offset: nat, args: seq<seq<byte>>, i: nat)
      returns (fits: bool, buf': seq<byte>, offset': nat)
    requires i < |args|
    requires offset == |Joined(args[..i])| <= |buf|
    requires buf[..offset] == Joined(args[..i])
    ensures fits <==> |Joined(args[..i + 1])| <= |buf|
    ensures fits ==> |buf'| == |buf| && offset' == |Joined(args[..i + 1])| && buf'[..offset'] == Joined(args[..i + 1])
  {
    var parameter := CStr(args[i]);
    var length := |parameter|;
    var delimiter := Comma;
    if length == 2 && parameter[0] == Dash {
      parameter := parameter[1..];
      length := length - 1;
      delimiter := Space;
    }
    EmittedCases(args[i]);
    assert [delimiter] + parameter == Emitted(args[i]);
    JoinedStep(args, i);
    if offset + length >= |buf| {
      return false, buf, offset;
    }
    AppendArgument(buf, args, i, [delimiter] + parameter);
    buf' := buf[..offset] + ([delimiter] + parameter) + buf[offset + 1 + length..];
    offset' := offset + 1 + length;
    fits := true;
  }

  /** The returned offset counts one delimiter plus the copied text for every argument. */
  lemma {:induction false} JoinedLength(args: seq<seq<byte>>)
    ensures |Joined(args)| == EmittedLength(args)
    decreases |args|
  {
    if |args| > 0 {
      var tail := args[1..];
      if |tail| == 0 {
        assert args == [args[0]];
      } else {
        JoinedLength(args[..|args| - 1]);
        JoinedLength(tail);
        JoinedLength(tail[..|tail| - 1]);
        assert args[..|args| - 1][1..] == tail[..|tail| - 1];
        EmittedLengthInit(args);
      }
    }
  }

  lemma {:induction false} EmittedLengthInit(args: seq<seq<byte>>)
    requires |args| > 0
    ensures EmittedLength(args) == EmittedLength(args[..|args| - 1]) + 1 + |Body(args[|args| - 1])|
    decreases |args|
  {
    if |args| > 1 {
      assert args[..|args| - 1][1..] == args[1..][..|args[1..]| - 1];
      EmittedLengthInit(args[1..]);
    } else {
      assert args[..|args| - 1] == [];
      assert args[1..] == [];
    }
  }

  /** Inside the joined bytes, argument `k`'s delimiter and text sit right after the bytes of
      the arguments before it; the block keeps them there (`LayoutKeepsJoined`), except that the
      first argument's delimiter gives way to the marker. */
  lemma ArgumentPlacement(args: seq<seq<byte>>, k: nat)
    requires k < |args|
    ensures OffsetOf(args, k) + |Emitted(args[k])| <= |Joined(args)|
    ensures Joined(args)[OffsetOf(args, k) .. OffsetOf(args, k) + |Emitted(args[k])|] == Emitted(args[k])
  {
    JoinedStep(args, k);
    JoinedPrefix(args, k + 1);
    var o := OffsetOf(args, k);
    var e := Emitted(args[k]);
    assert Joined(args)[..o + |e|] == Joined(args[..k]) + e;
  }

  /** Only the first argument starts at offset 0. */
  lemma OffsetZero(args: seq<seq<byte>>, k: nat)
    requires k < |args|
    ensures OffsetOf(args, k) == 0 <==> k == 0
  {
    if k == 0 {
      assert args[..0] == [];
    } else {
      JoinedNonEmpty(args[..k]);
    }
  }

  /** Every argument contributes at least its delimiter. */
  lemma JoinedNonEmpty(args: seq<seq<byte>>)
    ensures |args| > 0 ==> |Joined(args)| > 0
  {
  }

  /** Past its first byte, the block repeats the joined arguments. */
  lemma LayoutKeepsJoined(args: seq<seq<byte>>, size: nat)
    requires 0 < size && |Joined(args)| <= size
    ensures forall i :: 0 < i < |Joined(args)| ==> Layout(args, size)[i] == Joined(args)[i]
  {
  }

  /** The marker 0 opens the block and spaces fill it from the returned offset to its end. */
  lemma LayoutMarkerAndPadding(args: seq<seq<byte>>, size: nat)
    requires 0 < size && |Joined(args)| <= size
    ensures |Layout(args, size)| == size
    ensures Layout(args, size)[0] == Nul
    ensures forall i :: |Joined(args)| <= i < size && i > 0 ==> Layout(args, size)[i] == Space
  {
  }

  /** The handshake reply is the block's first `length` bytes: the marker 0 followed by the
      joined arguments without their first delimiter; with no arguments it is empty. */
  lemma ReplyIsMarkedArguments(args: seq<seq<byte>>, size: nat)
    requires 0 < size && |Joined(args)| <= size
    ensures |args| == 0 ==> Layout(args, size)[..|Joined(args)|] == []
    ensures |args| > 0 ==> Layout(args, size)[..|Joined(args)|] == [Nul] + Joined(args)[1..]
  {
    if |args| > 0 {
      JoinedStep(args, |args| - 1);
      assert args[..|args|] == args;
      var j := Joined(args);
      assert |j| > 0;
      var b := Layout(args, size);
      assert b[..|j|] == [Nul] + j[1..];
    } else {
      assert Joined(args) == [];
    }
  }
}

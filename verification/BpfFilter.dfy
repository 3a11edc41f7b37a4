/**
 The classic BPF program that selects an EtherType, interpreted, and the
 reference parser that walks over VLAN tags.
 */
module BpfFilter {
  import opened Wrappers

  type Byte = b: int | 0 <= b < 256

  const VLAN := 0x8100
  const SERVICE_VLAN := 0x88A8
  const ETHERNET_HEADER_SIZE := 14
  const ETHER_TYPE_OFFSET := 12
  const VLAN_TAG_SIZE := 4

  predicate IsTag(t: int) { t == VLAN || t == SERVICE_VLAN }

  function Half(frame: seq<Byte>, offset: nat): int
    requires offset + 2 <= |frame|
  {
    var high: int, low: int := frame[offset], frame[offset + 1];
    high * 256 + low
  }

  // ----- The reference parser

  /** The type behind the tags that start at offset. */
  function TypeFrom(frame: seq<Byte>, offset: nat): Option<int>
    decreases |frame| - offset
  {
    if |frame| < offset + 2 then None
    else if IsTag(Half(frame, offset)) then TypeFrom(frame, offset + VLAN_TAG_SIZE)
    else Some(Half(frame, offset))
  }

  /** How many tags precede the type, or precede the end of the frame. */
  function TagsFrom(frame: seq<Byte>, offset: nat): nat
    decreases |frame| - offset
  {
    if |frame| < offset + 2 || !IsTag(Half(frame, offset)) then 0
    else 1 + TagsFrom(frame, offset + VLAN_TAG_SIZE)
  }

  function FrameOuterEtherType(frame: seq<Byte>): Option<int> {
    if |frame| < ETHERNET_HEADER_SIZE then None else Some(Half(frame, ETHER_TYPE_OFFSET))
  }

  /** frameEtherType: the loop that steps over tags. */
  method FrameEtherType(frame: seq<Byte>) returns (result: Option<int>)
    ensures result == TypeFrom(frame, ETHER_TYPE_OFFSET)
    ensures result.Some? ==> !IsTag(result.value)
  {
    var outer := FrameOuterEtherType(frame);
    if outer.None? {
      return None;
    }
    var kind := outer.value;
    var offset := ETHER_TYPE_OFFSET;
    while IsTag(kind)
      invariant offset + 2 <= |frame| && kind == Half(frame, offset)
      invariant TypeFrom(frame, offset) == TypeFrom(frame, ETHER_TYPE_OFFSET)
      decreases |frame| - offset
    {
      offset := offset + VLAN_TAG_SIZE;
      if |frame| < offset + 2 {
        return None;
      }
      kind := Half(frame, offset);
    }
    result := Some(kind);
  }

  // ----- The program and its interpreter

  datatype Instruction =
    | LoadHalf(offset: nat)
    | JumpIfEqual(value: int, ifTrue: nat, ifFalse: nat)
    | Return(result: nat)

  const ACCEPT := 0xFFFF

  function Program(target: int): seq<Instruction> {
    [ LoadHalf(12),
      JumpIfEqual(target, 8, 0),
      JumpIfEqual(VLAN, 1, 0),
      JumpIfEqual(SERVICE_VLAN, 0, 7),
      LoadHalf(16),
      JumpIfEqual(target, 4, 0),
      JumpIfEqual(VLAN, 1, 0),
      JumpIfEqual(SERVICE_VLAN, 0, 3),
      LoadHalf(20),
      JumpIfEqual(target, 0, 1),
      Return(ACCEPT),
      Return(0) ]
  }

  /** The accumulator machine.  A load outside the frame ends with 0; jumps only
      lead forwards, so the program counter is the measure. */
  function Run(program: seq<Instruction>, frame: seq<Byte>, pc: nat, accumulator: int): nat
    decreases |program| - pc
  {
    if pc >= |program| then 0
    else
      match program[pc]
      case LoadHalf(k) =>
        if k + 2 > |frame| then 0 else Run(program, frame, pc + 1, Half(frame, k))
      case JumpIfEqual(k, ifTrue, ifFalse) =>
        Run(program, frame, pc + 1 + (if accumulator == k then ifTrue else ifFalse), accumulator)
      case Return(k) => k
  }

  function Filter(target: int, frame: seq<Byte>): nat { Run(Program(target), frame, 0, 0) }

  lemma Accepts(target: int, frame: seq<Byte>, a: int)
    ensures Run(Program(target), frame, 10, a) == ACCEPT && Run(Program(target), frame, 11, a) == 0
  {
  }

  /** Instructions 8 to 11: the type behind two tags must be the target. */
  lemma ThirdStage(target: int, frame: seq<Byte>, a: int)
    ensures Run(Program(target), frame, 8, a) == if |frame| >= 22 && Half(frame, 20) == target then ACCEPT else 0
  {
    if |frame| >= 22 {
      var h := Half(frame, 20);
      Accepts(target, frame, h);
      assert Run(Program(target), frame, 9, h) == Run(Program(target), frame, if h == target then 10 else 11, h);
      assert Run(Program(target), frame, 8, a) == Run(Program(target), frame, 9, h);
    } else {
      assert Program(target)[8] == LoadHalf(20);
    }
  }

  /** Instructions 4 to 7: the type behind one tag. */
  lemma SecondStage(target: int, frame: seq<Byte>, a: int)
    ensures Run(Program(target), frame, 4, a) ==
      if |frame| < 18 then 0
      else if Half(frame, 16) == target then ACCEPT
      else if IsTag(Half(frame, 16)) then Run(Program(target), frame, 8, Half(frame, 16))
      else 0
  {
    var p := Program(target);
    if |frame| >= 18 {
      var h := Half(frame, 16);
      Accepts(target, frame, h);
      assert Run(p, frame, 4, a) == Run(p, frame, 5, h);
      assert Run(p, frame, 5, h) == Run(p, frame, if h == target then 10 else 6, h);
      assert Run(p, frame, 6, h) == Run(p, frame, if h == VLAN then 8 else 7, h);
      assert Run(p, frame, 7, h) == Run(p, frame, if h == SERVICE_VLAN then 8 else 11, h);
    } else {
      assert p[4] == LoadHalf(16);
    }
  }

  /** Instructions 0 to 3: the outer type. */
  lemma FirstStage(target: int, frame: seq<Byte>)
    ensures Filter(target, frame) ==
      if |frame| < 14 then 0
      else if Half(frame, 12) == target then ACCEPT
      else if IsTag(Half(frame, 12)) then Run(Program(target), frame, 4, Half(frame, 12))
      else 0
  {
    var p := Program(target);
    if |frame| >= 14 {
      var h := Half(frame, 12);
      Accepts(target, frame, h);
      assert Run(p, frame, 0, 0) == Run(p, frame, 1, h);
      assert Run(p, frame, 1, h) == Run(p, frame, if h == target then 10 else 2, h);
      assert Run(p, frame, 2, h) == Run(p, frame, if h == VLAN then 4 else 3, h);
      assert Run(p, frame, 3, h) == Run(p, frame, if h == SERVICE_VLAN then 4 else 11, h);
    } else {
      assert p[0] == LoadHalf(12);
    }
  }

  /** For a target that is not a tag the program accepts exactly the frames whose
      type, by the reference parser, is the target behind at most two tags. */
  lemma FilterAgreesWithParser(target: int, frame: seq<Byte>)
    requires !IsTag(target)
    ensures Filter(target, frame) == ACCEPT || Filter(target, frame) == 0
    ensures Filter(target, frame) == ACCEPT <==>
      TypeFrom(frame, ETHER_TYPE_OFFSET) == Some(target) && TagsFrom(frame, ETHER_TYPE_OFFSET) <= 2
  {
    FirstStage(target, frame);
    if |frame| >= 14 && IsTag(Half(frame, 12)) {
      SecondStage(target, frame, Half(frame, 12));
      assert TypeFrom(frame, 12) == TypeFrom(frame, 16) && TagsFrom(frame, 12) == 1 + TagsFrom(frame, 16);
      if |frame| >= 18 && IsTag(Half(frame, 16)) {
        ThirdStage(target, frame, Half(frame, 16));
        assert TypeFrom(frame, 16) == TypeFrom(frame, 20) && TagsFrom(frame, 16) == 1 + TagsFrom(frame, 20);
        if |frame| >= 22 && IsTag(Half(frame, 20)) {
          assert TagsFrom(frame, 20) == 1 + TagsFrom(frame, 24);
        }
      }
    }
  }

  /** The parser itself never reports a tag type. */
  lemma {:induction false} ParserSkipsTags(frame: seq<Byte>, offset: nat)
    ensures TypeFrom(frame, offset).Some? ==> !IsTag(TypeFrom(frame, offset).value)
    decreases |frame| - offset
  {
    if |frame| >= offset + 2 && IsTag(Half(frame, offset)) {
      ParserSkipsTags(frame, offset + VLAN_TAG_SIZE);
    }
  }

  /** The condition on the target is exact: the program admits only frames of the
      target type if and only if the target is not a tag type. */
  lemma FilterIsSoundIff(target: int)
    requires 0 <= target < 0x1_0000
    ensures (forall frame :: Filter(target, frame) == ACCEPT ==> TypeFrom(frame, ETHER_TYPE_OFFSET) == Some(target))
       <==> !IsTag(target)
  {
    if IsTag(target) {
      var zeros: seq<Byte> := seq(12, _ => 0);
      var frame: seq<Byte> := zeros + [target / 256, target % 256];
      assert |frame| == 14 && Half(frame, 12) == target;
      FirstStage(target, frame);
      ParserSkipsTags(frame, 12);
      assert Filter(target, frame) == ACCEPT && TypeFrom(frame, ETHER_TYPE_OFFSET) != Some(target);
    } else {
      forall frame | Filter(target, frame) == ACCEPT
        ensures TypeFrom(frame, ETHER_TYPE_OFFSET) == Some(target)
      {
        FilterAgreesWithParser(target, frame);
      }
    }
  }

  // ----- What is in a frame

  /** A VLAN or service VLAN tag with its control bytes. */
  datatype Tag = Tag(service: bool, first: Byte, second: Byte)

  function TagBytes(tag: Tag): seq<Byte> {
    if tag.service then [0x88, 0xA8, tag.first, tag.second] else [0x81, 0x00, tag.first, tag.second]
  }

  function Tagged(tags: seq<Tag>): seq<Byte> { if tags == [] then [] else TagBytes(tags[0]) + Tagged(tags[1..]) }

  function TypeBytes(kind: int): seq<Byte>
    requires 0 <= kind < 0x1_0000
  {
    [kind / 256, kind % 256]
  }

  lemma {:induction false} TagsAreStepped(before: seq<Byte>, tags: seq<Tag>, behind: seq<Byte>, kind: int)
    requires 0 <= kind < 0x1_0000 && kind != 0x8100 && kind != 0x88A8
    ensures var frame := before + Tagged(tags) + TypeBytes(kind) + behind;
      TypeFrom(frame, |before|) == Some(kind) && TagsFrom(frame, |before|) == |tags|
    decreases |tags|
  {
    var frame := before + Tagged(tags) + TypeBytes(kind) + behind;
    if tags == [] {
      assert frame[|before|] == kind / 256 && frame[|before| + 1] == kind % 256;
    } else {
      var b := TagBytes(tags[0]);
      assert frame == (before + b) + Tagged(tags[1..]) + TypeBytes(kind) + behind;
      assert frame[|before|] == b[0] && frame[|before| + 1] == b[1];
      TagsAreStepped(before + b, tags[1..], behind, kind);
    }
  }

  /** A frame with two addresses, any number of tags and a type is parsed to that type,
      and accepted for it exactly if there are at most two tags. */
  lemma FramesAreParsed(addresses: seq<Byte>, tags: seq<Tag>, kind: int, payload: seq<Byte>)
    requires |addresses| == 12 && 0 <= kind < 0x1_0000 && kind != 0x8100 && kind != 0x88A8
    ensures var frame := addresses + Tagged(tags) + TypeBytes(kind) + payload;
      && TypeFrom(frame, 12) == Some(kind)
      && (Filter(kind, frame) > 0 <==> |tags| <= 2)
      && forall target :: !IsTag(target) && target != kind ==> Filter(target, frame) == 0
  {
    var frame := addresses + Tagged(tags) + TypeBytes(kind) + payload;
    TagsAreStepped(addresses, tags, payload, kind);
    FilterAgreesWithParser(kind, frame);
    forall target | !IsTag(target) && target != kind
      ensures Filter(target, frame) == 0
    {
      FilterAgreesWithParser(target, frame);
    }
  }
}

/**
 * The three-byte MIDI messages the virtual keyboard and the virtual
 * controllers queue on the current page (`virtualMidiIn`, `virtualCCIn`),
 * and a reading of such bytes as the channel voice messages of the MIDI 1.0
 * Detailed Specification (Note Off 0x8n, Note On 0x9n, Polyphonic Key
 * Pressure 0xAn, Control Change 0xBn).
 */
module Midi {

  newtype byte = x: int | 0 <= x < 256

  function Pow2(n: nat): nat {
    if n == 0 then 1 else 2 * Pow2(n - 1)
  }

  /** Bitwise OR of two naturals, from the lowest bit up. */
  function Or(a: nat, b: nat): nat
    decreases a + b
  {
    if a == 0 then b
    else if b == 0 then a
    else 2 * Or(a / 2, b / 2) + (if a % 2 == 1 || b % 2 == 1 then 1 else 0)
  }

  lemma OrEven(a: nat, b: nat)
    requires a % 2 == 0
    ensures Or(a, b) == 2 * Or(a / 2, b / 2) + b % 2
  {
  }

  /** OR keeps within `n` bits. */
  lemma {:induction false} OrBelow(a: nat, b: nat, n: nat)
    requires a < Pow2(n) && b < Pow2(n)
    ensures Or(a, b) < Pow2(n)
  {
    if a != 0 && b != 0 {
      OrBelow(a / 2, b / 2, n - 1);
    }
  }

  /** OR with a number below 2^n adds it to a multiple of 2^n. */
  lemma {:induction false} OrAddsLowBits(q: nat, b: nat, n: nat)
    requires b < Pow2(n)
    ensures Or(q * Pow2(n), b) == q * Pow2(n) + b
  {
    if n > 0 {
      var a := q * Pow2(n);
      assert a == 2 * (q * Pow2(n - 1));
      OrEven(a, b);
      OrAddsLowBits(q, b / 2, n - 1);
    }
  }

  /** OR with a channel number fills the low nibble of a status. */
  lemma OrNibble(a: nat, c: nat)
    requires a % 16 == 0 && c < 16
    ensures Or(a, c) == a + c
  {
    assert Pow2(4) == 16;
    OrAddsLowBits(a / 16, c, 4);
  }

  /** OR with 0x80 sets the top bit of a byte. */
  lemma OrHighBit(x: nat)
    requires x < 128
    ensures Or(128, x) == 128 + x
  {
    assert Pow2(7) == 128;
    OrAddsLowBits(1, x, 7);
  }

  /** OR with all ones below 2^n gives all ones. */
  lemma {:induction false} OrAllOnes(a: nat, n: nat)
    requires a < Pow2(n)
    ensures Or(a, Pow2(n) - 1) == Pow2(n) - 1
  {
    if n > 0 && a != 0 {
      OrAllOnes(a / 2, n - 1);
    }
  }

  /** `|` on two bytes. */
  function Or8(a: byte, b: byte): (r: byte)
    ensures r as int == Or(a as nat, b as nat)
  {
    assert Pow2(8) == 256;
    OrBelow(a as nat, b as nat, 8);
    Or(a as nat, b as nat) as byte
  }

  /** The low eight bits of a C `int`, which is what storing it in an
      `unsigned char` keeps (conversion modulo 256). */
  function Low8(x: int): (b: byte)
    ensures 0 <= x < 256 ==> b as int == x
  {
    (x % 256) as byte
  }

  /**
   * `virtualMidiIn`: status `(8 << 4) | on << 4 | (channel - 1)` kept to
   * eight bits, then the note and the velocity. The low eight bits of an OR
   * are the OR of the low eight bits, and those of `on << 4` are
   * `on * 16` modulo 256, so the status is computed on bytes.
   */
  function VirtualMidiIn(on: int, note: int, channel: int, velocity: int): (m: seq<byte>)
    ensures |m| == 3
  {
    [Or8(Or8(0x80, Low8(on * 16)), Low8(channel - 1)), Low8(note), Low8(velocity)]
  }

  /** `virtualCCIn`: status `11 << 4 | (channel - 1)`, then controller and value. */
  function VirtualCCIn(channel: int, cc: int, value: int): (m: seq<byte>)
    ensures |m| == 3
  {
    [Or8(0xB0, Low8(channel - 1)), Low8(cc), Low8(value)]
  }

  /** A message as a receiver reads it; channels are numbered from 0. */
  datatype ChannelMessage =
    | NoteOff(channel: nat, key: nat, velocity: nat)
    | NoteOn(channel: nat, key: nat, velocity: nat)
    | KeyPressure(channel: nat, key: nat, pressure: nat)
    | ControlChange(channel: nat, controller: nat, value: nat)
    | NotChannelVoice

  /** A status byte, kind in the high four bits and channel in the low four,
      followed by two data bytes below 0x80. */
  function Decode(m: seq<byte>): (r: ChannelMessage)
    ensures r != NotChannelVoice ==> |m| == 3 && m[1] < 0x80 && m[2] < 0x80
  {
    if |m| != 3 || m[1] >= 0x80 || m[2] >= 0x80 then NotChannelVoice
    else
      var ch := m[0] as nat % 16;
      var kind := m[0] as nat / 16;
      if kind == 0x8 then NoteOff(ch, m[1] as nat, m[2] as nat)
      else if kind == 0x9 then NoteOn(ch, m[1] as nat, m[2] as nat)
      else if kind == 0xA then KeyPressure(ch, m[1] as nat, m[2] as nat)
      else if kind == 0xB then ControlChange(ch, m[1] as nat, m[2] as nat)
      else NotChannelVoice
  }

  /** The kind nibble of each channel voice message. */
  function Kind(msg: ChannelMessage): nat {
    match msg
    case NoteOff(_, _, _) => 0x8
    case NoteOn(_, _, _) => 0x9
    case KeyPressure(_, _, _) => 0xA
    case ControlChange(_, _, _) => 0xB
    case NotChannelVoice => 0
  }

  function FirstData(msg: ChannelMessage): nat
    requires !msg.NotChannelVoice?
  {
    if msg.ControlChange? then msg.controller else msg.key
  }

  function SecondData(msg: ChannelMessage): nat
    requires !msg.NotChannelVoice?
  {
    match msg
    case NoteOff(_, _, v) => v
    case NoteOn(_, _, v) => v
    case KeyPressure(_, _, p) => p
    case ControlChange(_, _, v) => v
  }

  /** The bytes of a channel voice message whose fields fit their nibble and bytes. */
  function Encode(msg: ChannelMessage): (m: seq<byte>)
    requires !msg.NotChannelVoice? && msg.channel < 16
    requires FirstData(msg) < 128 && SecondData(msg) < 128
    ensures |m| == 3 && m[0] >= 0x80
  {
    [(16 * Kind(msg) + msg.channel) as byte, FirstData(msg) as byte, SecondData(msg) as byte]
  }

  /** Decoding inverts encoding. */
  lemma DecodeEncode(msg: ChannelMessage)
    requires !msg.NotChannelVoice? && msg.channel < 16
    requires FirstData(msg) < 128 && SecondData(msg) < 128
    ensures Decode(Encode(msg)) == msg
  {
    var s := 16 * Kind(msg) + msg.channel;
    assert s / 16 == Kind(msg) && s % 16 == msg.channel;
  }

  /** The status byte of a note message with `on` 0 or 1 on channels 1 to 16. */
  lemma NoteStatus(on: int, channel: int)
    requires 0 <= on <= 1 && 1 <= channel <= 16
    ensures Or8(Or8(0x80, Low8(on * 16)), Low8(channel - 1)) as int == 0x80 + 16 * on + channel - 1
  {
    var x := Low8(on * 16);
    assert x as int == 16 * on;
    OrHighBit(16 * on);
    var h := Or8(0x80, x);
    assert h as int == 128 + 16 * on;
    var c := Low8(channel - 1);
    assert c as int == channel - 1;
    OrNibble(128 + 16 * on, channel - 1);
    assert Or8(h, c) as int == Or(128 + 16 * on, channel - 1);
  }

  /** Key 1 of the virtual keyboard sends Note On, key 0 Note Off, on the
      channel below the 1-based one it shows. */
  lemma VirtualNotes(on: int, note: int, channel: int, velocity: int)
    requires 0 <= on <= 1 && 1 <= channel <= 16
    requires 0 <= note < 128 && 0 <= velocity < 128
    ensures VirtualMidiIn(on, note, channel, velocity)[0] as int == 0x80 + 16 * on + channel - 1
    ensures Decode(VirtualMidiIn(on, note, channel, velocity))
            == if on == 1 then NoteOn(channel - 1, note, velocity) else NoteOff(channel - 1, note, velocity)
  {
    NoteStatus(on, channel);
    var m := VirtualMidiIn(on, note, channel, velocity);
    assert m[0] as nat / 16 == 8 + on && m[0] as nat % 16 == channel - 1;
  }

  /** A virtual controller sends Control Change on the channel below the one it shows. */
  lemma VirtualControls(channel: int, cc: int, value: int)
    requires 1 <= channel <= 16 && 0 <= cc < 128 && 0 <= value < 128
    ensures VirtualCCIn(channel, cc, value)[0] as int == 0xB0 + channel - 1
    ensures Decode(VirtualCCIn(channel, cc, value)) == ControlChange(channel - 1, cc, value)
  {
    OrNibble(0xB0, channel - 1);
  }

  /** An `on` value of 2 is not a note message at all: its bits reach the
      kind nibble and make Polyphonic Key Pressure. */
  lemma OnTwoIsKeyPressure(note: int, channel: int, velocity: int)
    requires 1 <= channel <= 16 && 0 <= note < 128 && 0 <= velocity < 128
    ensures Decode(VirtualMidiIn(2, note, channel, velocity)) == KeyPressure(channel - 1, note, velocity)
  {
    OrHighBit(32);
    OrNibble(0xA0, channel - 1);
  }

  /** Channel 0 makes `channel - 1` all ones: the status byte becomes 0xFF,
      System Reset, for a note as for a controller. */
  lemma ChannelZeroIsSystemReset(on: int, note: int, cc: int, value: int)
    ensures VirtualMidiIn(on, note, 0, value)[0] == 0xFF
    ensures VirtualCCIn(0, cc, value)[0] == 0xFF
  {
    assert Low8(0 - 1) == 0xFF;
    assert Pow2(8) == 256;
    OrAllOnes(Or8(0x80, Low8(on * 16)) as nat, 8);
    OrAllOnes(0xB0, 8);
  }
}

/** The values that flow from the file reader to the player. */
module Elements {
  import opened Common

  const CHANNELS := 16

  type ChannelIndex = c: nat | c < CHANNELS

  /** A parsed file element (elements.h). Times are ticks; `length` is -1 until the note-off is seen. */
  datatype Element =
    | Root(time: Word, timeBase: nat)
    | Note(time: Word, channel: nat, key: Byte, velocity: Byte, length: int, offVelocity: Byte)
    | KeyTouch(time: Word, channel: nat, key: Byte, velocity: Byte)
    | Control(time: Word, channel: nat, control: Byte, setting: Byte)
    | Program(time: Word, channel: nat, program: Byte)
    | Pressure(time: Word, channel: nat, velocity: Byte)
    | Pitch(time: Word, channel: nat, bend: int)
    | Sysex(time: Word, status: Byte, data: Bytes)
    | Tempo(time: Word, microTempo: nat)
    | TimeSignature(time: Word, data: Bytes)
    | KeySignature(time: Word, data: Bytes)
    | Text(time: Word, kind: Byte, data: Bytes)
    | SmpteOffset(time: Word, data: Bytes)
  {
    /** Elements that carry a device channel and produce channel messages. */
    predicate HasChannel() {
      Note? || KeyTouch? || Control? || Program? || Pressure? || Pitch?
    }
  }

  /** The raw bytes of one event; the first byte is always a status byte. */
  type MidiData = d: Bytes | |d| > 0 witness [0]

  /** One scheduled event and the element it was made from (struct jpmidi_event). */
  datatype Event = Event(data: MidiData, element: Element)

  /** An event together with the frame it is stored under. */
  datatype Placed = Placed(frame: Word, event: Event)

  /** The status byte for a channel message: kind | (0x0F & channel). */
  function Status(kind: Byte, channel: nat): Byte
    requires kind % 16 == 0 && kind < 0x100
  {
    kind + channel % 16
  }
}

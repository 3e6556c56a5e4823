/**
 * The uniform channel: the 16-byte parameter block the fragment shader reads, the
 * device buffer that holds it, and the bind group that exposes that buffer at slot 0.
 */
module UniformChannel {
  import opened Scalars
  import opened Gpu

  /** `UniformData`, a `#[repr(C)]` record of four `f32` fields. */
  datatype UniformData = UniformData(time: F32, zoom: F32, offset: (F32, F32))

  /** Size of the payload in bytes, and the byte offset of each field within it. */
  const PAYLOAD_SIZE: nat := 16
  const TIME_AT: nat := 0
  const ZOOM_AT: nat := 4
  const OFFSET_X_AT: nat := 8
  const OFFSET_Y_AT: nat := 12

  /** The slot the uniform buffer is bound to, in the layout and in the bind group alike. */
  const UNIFORM_BINDING: nat := 0

  /**
   * `UniformData::new`: time 0.0, zoom 1.0, offset (0.0, 0.0); its image is all zero
   * bytes but for 1.0 in little-endian order at the zoom field.
   */
  function DefaultData(): (d: UniformData)
    ensures Pack(d) == [0, 0, 0, 0, 0, 0, 0x80, 0x3F, 0, 0, 0, 0, 0, 0, 0, 0]
  {
    UniformData(F32_ZERO, F32_ONE, (F32_ZERO, F32_ZERO))
  }

  /** The little-endian bytes of one 32-bit word. */
  function WordBytes(w: F32): (b: seq<Byte>)
    ensures |b| == 4 && WordOf(b) == w
  {
    [(w & 0xFF) as Byte, ((w >> 8) & 0xFF) as Byte, ((w >> 16) & 0xFF) as Byte, (w >> 24) as Byte]
  }

  /** The 32-bit word whose little-endian bytes are `b`. */
  function WordOf(b: seq<Byte>): F32
    requires |b| == 4
  {
    (b[0] as F32) | ((b[1] as F32) << 8) | ((b[2] as F32) << 16) | ((b[3] as F32) << 24)
  }

  lemma WordBytesOfWord(b: seq<Byte>)
    requires |b| == 4
    ensures WordBytes(WordOf(b)) == b
  {
    ByteOfWord(b[0], b[1], b[2], b[3]);
    assert b == [b[0], b[1], b[2], b[3]];
  }

  lemma ByteOfWord(b0: Byte, b1: Byte, b2: Byte, b3: Byte)
    ensures var w: F32 := (b0 as F32) | ((b1 as F32) << 8) | ((b2 as F32) << 16) | ((b3 as F32) << 24);
      && (w & 0xFF) as Byte == b0 && ((w >> 8) & 0xFF) as Byte == b1
      && ((w >> 16) & 0xFF) as Byte == b2 && (w >> 24) as Byte == b3
  {
  }

  /** The word stored at byte offset `at` of `b`. */
  function FieldAt(b: seq<Byte>, at: nat): F32
    requires at + 4 <= |b|
  {
    WordOf(b[at..at + 4])
  }

  /** Reads a payload back from its 16 bytes, one field every four bytes. */
  function Unpack(b: seq<Byte>): UniformData
    requires |b| == PAYLOAD_SIZE
  {
    UniformData(FieldAt(b, TIME_AT), FieldAt(b, ZOOM_AT), (FieldAt(b, OFFSET_X_AT), FieldAt(b, OFFSET_Y_AT)))
  }

  /** `bytemuck::bytes_of`: the four fields in declaration order, four bytes each and no padding. */
  function Pack(d: UniformData): (b: seq<Byte>)
    ensures |b| == PAYLOAD_SIZE
  {
    WordBytes(d.time) + WordBytes(d.zoom) + WordBytes(d.offset.0) + WordBytes(d.offset.1)
  }

  /** Unpacking the image of a payload gives back the same four words, each from its own offset. */
  lemma UnpackOfPack(d: UniformData)
    ensures Unpack(Pack(d)) == d
  {
    FourWordSlices(WordBytes(d.time), WordBytes(d.zoom), WordBytes(d.offset.0), WordBytes(d.offset.1));
  }

  /** Four 4-byte groups laid end to end sit at offsets 0, 4, 8 and 12. */
  lemma FourWordSlices(w0: seq<Byte>, w1: seq<Byte>, w2: seq<Byte>, w3: seq<Byte>)
    requires |w0| == 4 && |w1| == 4 && |w2| == 4 && |w3| == 4
    ensures var b := w0 + w1 + w2 + w3;
      && b[TIME_AT..TIME_AT + 4] == w0 && b[ZOOM_AT..ZOOM_AT + 4] == w1
      && b[OFFSET_X_AT..OFFSET_X_AT + 4] == w2 && b[OFFSET_Y_AT..OFFSET_Y_AT + 4] == w3
  {
    var b := w0 + w1 + w2 + w3;
    assert b[0..4] == w0;
    assert b[4..8] == w1;
    assert b[8..12] == w2;
    assert b[12..16] == w3;
  }

  /** Every 16-byte image is the image of exactly one payload: packing what was unpacked restores the bytes. */
  lemma PackOfUnpack(b: seq<Byte>)
    requires |b| == PAYLOAD_SIZE
    ensures Pack(Unpack(b)) == b
  {
    var d := Unpack(b);
    WordBytesOfWord(b[0..4]);
    WordBytesOfWord(b[4..8]);
    WordBytesOfWord(b[8..12]);
    WordBytesOfWord(b[12..16]);
    assert b == b[0..4] + b[4..8] + b[8..12] + b[12..16];
  }

  /** Two payloads with the same bytes are the same payload. */
  lemma PackInjective(d: UniformData, e: UniformData)
    requires Pack(d) == Pack(e)
    ensures d == e
  {
    UnpackOfPack(d);
    UnpackOfPack(e);
  }

  /** `UniformData::bind_group_layout`: one uniform buffer, visible to the fragment stage. */
  function UniformLayoutEntry(): BindGroupLayoutEntry
  {
    BindGroupLayoutEntry(UNIFORM_BINDING, Fragment, UniformBuffer, false)
  }

  /**
   * The bind group `Uniforms::new` creates over the whole uniform buffer: its one layout
   * entry and its one entry name the same slot, slot 0, for a fragment-stage uniform buffer.
   */
  function UniformBindGroup(): (g: BindGroup)
    ensures |g.layout| == 1 && |g.entries| == 1
    ensures g.layout[0].binding == g.entries[0].binding == 0
    ensures g.layout[0].visibility == Fragment && g.layout[0].bufferType == UniformBuffer
    ensures g.entries[0].wholeBuffer
  {
    BindGroup([UniformLayoutEntry()], [BindGroupEntry(UNIFORM_BINDING, true)])
  }

  /**
   * `queue.write_buffer(buffer, 0, bytes)` as it lands in device memory: `bytes` replaces
   * the first `|bytes|` bytes of `buffer`, the rest is untouched.
   */
  method WriteAtStart(buffer: array<Byte>, bytes: seq<Byte>)
    requires |bytes| <= buffer.Length
    modifies buffer
    ensures buffer[..|bytes|] == bytes
    ensures buffer[|bytes|..] == old(buffer[|bytes|..])
  {
    for i := 0 to |bytes|
      invariant buffer[..i] == bytes[..i]
      invariant buffer[|bytes|..] == old(buffer[|bytes|..])
    {
      buffer[i] := bytes[i];
    }
  }

  /** `Uniforms`: the current payload, the device buffer holding its bytes and its bind group. */
  class Uniforms {
    const bindGroup: BindGroup
    const buffer: array<Byte>
    var data: UniformData

    /** The buffer is exactly as large as the payload, and the bind group is the one over it. */
    ghost predicate Sized()
      reads this
    {
      buffer.Length == PAYLOAD_SIZE && bindGroup == UniformBindGroup()
    }

    /** Besides, the buffer holds the bytes of the current payload. */
    ghost predicate Valid()
      reads this, buffer
    {
      Sized() && buffer[..] == Pack(data)
    }

    /** `Uniforms::new`: the default payload, a buffer initialised with its bytes, and the bind group. */
    constructor ()
      ensures Valid() && fresh(buffer)
      ensures data == DefaultData()
      ensures buffer[..] == Pack(DefaultData())
    {
      var d := DefaultData();
      var b := new Byte[PAYLOAD_SIZE];
      WriteAtStart(b, Pack(d));
      data := d;
      buffer := b;
      bindGroup := UniformBindGroup();
    }

    /**
     * `Uniforms::update`: the payload becomes exactly the given triple and the whole
     * buffer is overwritten with its bytes from offset 0; the bind group is unchanged.
     */
    method Update(device: Device, time: F32, zoom: F32, offset: (F32, F32))
      requires Sized()
      modifies this, buffer, device
      ensures Valid()
      ensures data == UniformData(time, zoom, offset)
      ensures Unpack(buffer[..]) == data
      ensures device.log == old(device.log) + [WriteBuffer(0, Pack(data))]
    {
      data := UniformData(time, zoom, offset);
      var bytes := Pack(data);
      WriteAtStart(buffer, bytes);
      assert buffer[..] == bytes;
      UnpackOfPack(data);
      device.log := device.log + [WriteBuffer(0, bytes)];
    }
  }
}

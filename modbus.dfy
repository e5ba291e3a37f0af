/**
 * Modbus devices and channels: the per-device long-read cache (response
 * buffer, freshness flag, base address of the last long read) and
 * ModbusReg.readReg, which performs a direct read, a long read or a cached
 * read, decodes the words and records a result code.
 *
 * The bus transaction itself is outside the model: ReadReg receives the
 * reply the device gives (a status byte and the words read) and reports the
 * request it issued, if any.
 */
module Modbus {
  import opened Wrappers
  import opened CInt
  import opened ModbusDecode

  /** MODBUS_TYPE_RTU (serial, ModbusMasterScaled) or MODBUS_TYPE_TCP (ModbusMasterTCP). */
  datatype Transport = Rtu | Tcp

  /** Read functions of sections 6.3 and 6.4 of the Modbus Application Protocol Specification V1.1b3. */
  datatype FunctionCode = ReadHoldingRegisters | ReadInputRegisters

  function Code(f: FunctionCode): bv8 {
    match f
    case ReadHoldingRegisters => 0x03
    case ReadInputRegisters => 0x04
  }

  /** A read transaction: function, first register address and register count. */
  datatype Request = Request(fn: FunctionCode, address: int, count: int)

  /** The transport's answer: its status code and, on success, the words read. */
  datatype Reply = Reply(status: bv8, words: seq<bv16>)

  /** The function readReg(false) uses: input registers for MOD_INPUT_REG, holding otherwise. */
  function FunctionFor(regType: RegType): (f: FunctionCode)
    ensures f == ReadInputRegisters <==> regType == InputReg
  {
    if regType == InputReg then ReadInputRegisters else ReadHoldingRegisters
  }

  /** A cleared response buffer. */
  function Zeros(): (z: seq<bv16>)
    ensures |z| == LongReadCount && forall i :: 0 <= i < |z| ==> z[i] == 0
  {
    seq(LongReadCount, _ => 0)
  }

  /** The response buffer after a successful read returned `words`: they fill it from index 0. */
  function StoreWords(buf: seq<bv16>, words: seq<bv16>): (r: seq<bv16>)
    ensures |r| == |buf|
    ensures forall i :: 0 <= i < |buf| ==> r[i] == (if i < |words| then words[i] else buf[i])
  {
    seq(|buf|, i requires 0 <= i < |buf| => if i < |words| then words[i] else buf[i])
  }

  /** Storing the same words twice is storing them once. */
  lemma StoreWordsTwice(buf: seq<bv16>, words: seq<bv16>)
    ensures StoreWords(StoreWords(buf, words), words) == StoreWords(buf, words)
  {}

  /**
   * The TCP cached-read offset `addr & 0x3f`. In two's complement this is
   * `addr` modulo 64: always 0..63, and congruent to `addr`.
   */
  function TcpCacheOffset(addr: int): (o: int)
    ensures 0 <= o < 64
    ensures (addr - o) % 64 == 0
  {
    addr % 64
  }

  /** The TCP offset is the distance from the long read's base when that base is 64-aligned. */
  lemma TcpOffsetAligned(base: int, k: int)
    requires base % 64 == 0 && 0 <= k < 64
    ensures TcpCacheOffset(base + k) == k
  {
    assert base + k == (base / 64) * 64 + k;
  }

  /** For a base that is not 64-aligned, the TCP offset differs from the distance to the base. */
  lemma TcpOffsetMisaligned()
    ensures TcpCacheOffset(0x0018 + 11) == 35
  {}

  /**
   * A Modbus device (ModbusMasterScaled or ModbusMasterTCP) together with the
   * state of its transport library that the cache relies on.
   */
  class ModbusDevice {
    const name: string
    const transport: Transport
    /** cached_data_ok: the last long read succeeded. */
    var cachedDataOk: bool
    /** Address of the last long-read attempt (the RTU `<device>_cache_addr` statics). */
    var cacheBase: int
    /** The transport library's response buffer. */
    var responseBuffer: seq<bv16>

    ghost predicate Valid()
      reads this
    {
      |responseBuffer| == LongReadCount
    }

    constructor (name: string, transport: Transport)
      ensures Valid()
      ensures this.name == name && this.transport == transport
      ensures !cachedDataOk && cacheBase == 0 && responseBuffer == Zeros()
    {
      this.name := name;
      this.transport := transport;
      cachedDataOk := false;
      cacheBase := 0;
      responseBuffer := Zeros();
    }

    /** getResponseBuffer(i): the word at index i, 0xFFFF past the end of the buffer. */
    function ResponseWord(i: int): (w: bv16)
      reads this
      requires Valid()
    {
      if 0 <= i < |responseBuffer| then responseBuffer[i] else 0xFFFF
    }

    /** clearResponseBuffer() */
    method ClearResponseBuffer()
      modifies this`responseBuffer
      ensures responseBuffer == Zeros()
    {
      responseBuffer := Zeros();
    }

    /**
     * readHoldingRegisters / readInputRegisters: the status is the reply's,
     * and a successful reply's words land at the start of the buffer.
     */
    method Transact(reply: Reply) returns (status: bv8)
      requires Valid()
      modifies this`responseBuffer
      ensures Valid()
      ensures status == reply.status
      ensures responseBuffer ==
                if status == Success then StoreWords(old(responseBuffer), reply.words)
                else old(responseBuffer)
    {
      status := reply.status;
      if status == Success {
        responseBuffer := StoreWords(responseBuffer, reply.words);
      }
    }
  }

  /** A channel: one typed value read from a device's registers. */
  class ModbusReg {
    const dev: ModbusDevice
    const regType: RegType
    const addr: int
    const chanName: string
    const chanLabel: string
    const units: string
    const dataType: DataKind
    const strLength: int
    var numRegs: int
    /** modbus_result: the result code of the last read. */
    var modbusResult: bv8
    /** The val_int / val_float union. */
    var value: RegValue
    /** strbuf: the text valStrg() returns. */
    var strbuf: Display

    /**
     * The four constructors of the source; the ones without a string length
     * pass 0.
     */
    constructor (dev: ModbusDevice, regType: RegType, addr: int, chanName: string,
                 chanLabel: string, units: string, dataType: DataKind, strLength: int)
      ensures this.dev == dev && this.regType == regType && this.addr == addr
      ensures this.chanName == chanName && this.chanLabel == chanLabel && this.units == units
      ensures this.dataType == dataType && this.strLength == strLength
      ensures numRegs == RegCount(dataType, strLength)
      ensures modbusResult == Uninitialized
      ensures value == Bits(0) && strbuf == Text("")
    {
      this.dev := dev;
      this.regType := regType;
      this.addr := addr;
      this.chanName := chanName;
      this.chanLabel := chanLabel;
      this.units := units;
      this.dataType := dataType;
      this.strLength := strLength;
      modbusResult := Uninitialized;
      value := Bits(0);
      strbuf := Text("");
      new;
      SetNumRegs();
    }

    /** setNumRegs(): derive the register count from the data kind. */
    method SetNumRegs()
      modifies this`numRegs
      ensures numRegs == RegCount(dataType, strLength)
    {
      match dataType
      case HalfWord | HalfWordSigned | HalfWordSignedScaled | Float16
        | ScaledV | ScaledI | ScaledP | Scaled =>
        numRegs := 1;
      case FullWord | Float32 =>
        numRegs := 2;
      case Str =>
        numRegs := TruncDiv(strLength, 2);
      case LongRead =>
        numRegs := LongReadCount;
    }

    /** The buffer index a read takes its first word from. */
    ghost function Offset(useCached: bool): int
      reads this, dev
    {
      if !useCached || !dev.cachedDataOk then 0
      else if dev.transport == Rtu then addr - dev.cacheBase
      else TcpCacheOffset(addr)
    }

    /** valInt(): the union read as an int, when it holds an integer pattern. */
    function ValInt(): (r: Option<int>)
      reads this
      ensures r.Some? <==> value.Bits?
      ensures r.Some? ==> -0x8000_0000 <= r.value < 0x8000_0000
    {
      if value.Bits? then Some(ToInt32(value.bits)) else None
    }

    /**
     * readReg(use_cached). A long read clears the response buffer first.
     * A cached read issues no transaction: it succeeds iff the device's
     * cache is fresh and takes its word at addr - base (RTU) or
     * addr & 0x3f (TCP). Otherwise one transaction of numRegs registers is
     * issued; an RTU long read on holding registers records its address as
     * the cache base whatever the outcome. On success the words are decoded
     * and rendered; on failure the value is kept and the text becomes "NaN".
     * Only long reads change the cache flag.
     */
    method ReadReg(useCached: bool, reply: Reply) returns (result: bv8, sent: Option<Request>)
      requires dev.Valid()
      modifies this, dev
      ensures dev.Valid()
      ensures modbusResult == result
      ensures useCached ==> sent == None
      ensures !useCached ==> sent == Some(Request(FunctionFor(regType), addr, numRegs))
      ensures useCached ==> result == (if old(dev.cachedDataOk) then Success else CacheUnavailable)
      ensures !useCached ==> result == reply.status
      ensures dev.cachedDataOk == if dataType == LongRead then result == Success else old(dev.cachedDataOk)
      ensures dev.cacheBase ==
                if !useCached && dev.transport == Rtu && regType != InputReg && dataType == LongRead
                then addr else old(dev.cacheBase)
      ensures var cleared := if dataType == LongRead then Zeros() else old(dev.responseBuffer);
              dev.responseBuffer ==
                if !useCached && result == Success then StoreWords(cleared, reply.words) else cleared
      ensures result == Success ==>
                value == Decode(dataType, dev.ResponseWord(Offset(useCached)),
                                dev.ResponseWord(Offset(useCached) + 1))
                && strbuf == Render(dataType, value, old(strbuf))
      ensures result != Success ==> value == old(value) && strbuf == Text(NaNText)
      ensures numRegs == old(numRegs)
    {
      var offset;
      result, sent, offset := Acquire(useCached, reply);
      ghost var w0 := dev.ResponseWord(offset);
      ghost var w1 := dev.ResponseWord(offset + 1);
      Record(result, offset);
      assert dev.ResponseWord(offset) == w0 && dev.ResponseWord(offset + 1) == w1;
      assert result == Success ==> offset == Offset(useCached);
    }

    /**
     * The first half of readReg: the transaction (or cache check) that
     * produces the result code, and the offset of the first word.
     */
    method Acquire(useCached: bool, reply: Reply) returns (result: bv8, sent: Option<Request>, offset: int)
      requires dev.Valid()
      modifies dev`responseBuffer, dev`cacheBase
      ensures dev.Valid()
      ensures offset == Offset(useCached)
      ensures useCached ==> sent == None
      ensures !useCached ==> sent == Some(Request(FunctionFor(regType), addr, numRegs))
      ensures useCached ==> result == (if dev.cachedDataOk then Success else CacheUnavailable)
      ensures !useCached ==> result == reply.status
      ensures dev.cacheBase ==
                if !useCached && dev.transport == Rtu && regType != InputReg && dataType == LongRead
                then addr else old(dev.cacheBase)
      ensures var cleared := if dataType == LongRead then Zeros() else old(dev.responseBuffer);
              dev.responseBuffer ==
                if !useCached && result == Success then StoreWords(cleared, reply.words) else cleared
    {
      offset := 0;
      if dataType == LongRead {
        dev.ClearResponseBuffer();
      }
      sent := None;
      if useCached {
        if dev.cachedDataOk {
          if dev.transport == Rtu {
            offset := addr - dev.cacheBase;
          } else {
            offset := TcpCacheOffset(addr);
          }
          result := Success;
        } else {
          result := CacheUnavailable;
        }
      } else {
        sent := Some(Request(FunctionFor(regType), addr, numRegs));
        result := dev.Transact(reply);
        if dev.transport == Rtu && regType != InputReg && dataType == LongRead {
          dev.cacheBase := addr;
        }
      }
    }

    /**
     * The second half of readReg: record the result; on success decode the
     * words at `offset` and render them, on failure show "NaN"; a long read
     * sets the device's cache flag to whether it succeeded.
     */
    method Record(result: bv8, offset: int)
      requires dev.Valid()
      modifies this`modbusResult, this`value, this`strbuf, dev`cachedDataOk
      ensures modbusResult == result
      ensures dev.cachedDataOk == if dataType == LongRead then result == Success else old(dev.cachedDataOk)
      ensures result == Success ==>
                value == Decode(dataType, dev.ResponseWord(offset), dev.ResponseWord(offset + 1))
                && strbuf == Render(dataType, value, old(strbuf))
      ensures result != Success ==> value == old(value) && strbuf == Text(NaNText)
    {
      modbusResult := result;
      if result == Success {
        if dataType == LongRead {
          dev.cachedDataOk := true;
        }
        var w0 := dev.ResponseWord(offset);
        var w1 := dev.ResponseWord(offset + 1);
        value := Decode(dataType, w0, w1);
        strbuf := Render(dataType, value, strbuf);
      } else {
        strbuf := Text(NaNText);
        if dataType == LongRead {
          dev.cachedDataOk := false;
        }
      }
    }
  }
}

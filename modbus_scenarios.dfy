/**
 * Poll sequences over one device, as the polling loop runs them: a long
 * read followed by cached reads of channels inside its range. Each method
 * builds a fresh device and its channels and states what the last read
 * yields, whatever the words on the bus.
 */
module ModbusScenarios {
  import opened Wrappers
  import opened ModbusDecode
  import opened Modbus

  /**
   * After a successful long read at `base` returning `words`, a cached read
   * of the channel at base + k succeeds and decodes word k (and the word
   * after it, which is 0 past the returned words and 0xFFFF past the
   * buffer). On TCP this holds only for 64-aligned bases. (A cached read
   * of a long-read channel would clear the buffer before reading it.)
   */
  method CachedReadAfterLongRead(transport: Transport, base: int, k: int, words: seq<bv16>, kind: DataKind)
    returns (result: bv8, v: RegValue)
    requires 0 <= k < |words| <= LongReadCount
    requires transport == Tcp ==> base % 64 == 0
    requires kind != LongRead
    ensures result == Success
    ensures v == Decode(kind, words[k],
                        if k + 1 < |words| then words[k + 1]
                        else if k + 1 < LongReadCount then 0 else 0xFFFF)
  {
    var dev, chan := CachedChannel(transport, base, k, words, kind);
    var sent;
    result, sent := chan.ReadReg(true, Reply(Success, []));
    assert chan.Offset(true) == k;
    FilledWords(dev, words, k);
    ghost var w1 := if k + 1 < |words| then words[k + 1] else if k + 1 < LongReadCount then 0 else 0xFFFF;
    assert chan.value == Decode(kind, dev.ResponseWord(k), dev.ResponseWord(k + 1));
    assert chan.value == Decode(kind, words[k], w1);
    v := chan.value;
  }

  /** A filled device and a channel at base + k on it, whose cached offset is k. */
  method CachedChannel(transport: Transport, base: int, k: int, words: seq<bv16>, kind: DataKind)
    returns (dev: ModbusDevice, chan: ModbusReg)
    requires 0 <= k < |words| <= LongReadCount
    requires transport == Tcp ==> base % 64 == 0
    ensures fresh(dev) && fresh(chan) && chan.dev == dev && chan.dataType == kind
    ensures dev.Valid() && dev.cachedDataOk && dev.responseBuffer == StoreWords(Zeros(), words)
    ensures chan.Offset(true) == k
  {
    dev := FilledDevice(transport, base, words);
    chan := new ModbusReg(dev, HoldingReg, base + k, "channel", "", "", kind, 0);
    if transport == Tcp {
      TcpOffsetAligned(base, k);
    }
  }

  /** The words a cached read at offset k of a filled buffer sees. */
  lemma FilledWords(dev: ModbusDevice, words: seq<bv16>, k: int)
    requires dev.Valid() && dev.responseBuffer == StoreWords(Zeros(), words)
    requires 0 <= k < |words| <= LongReadCount
    ensures dev.ResponseWord(k) == words[k]
    ensures dev.ResponseWord(k + 1)
            == if k + 1 < |words| then words[k + 1] else if k + 1 < LongReadCount then 0 else 0xFFFF
  {}

  /** A new device after one successful long read at `base` that returned `words`. */
  method FilledDevice(transport: Transport, base: int, words: seq<bv16>) returns (dev: ModbusDevice)
    ensures fresh(dev) && dev.Valid() && dev.transport == transport
    ensures dev.cachedDataOk && dev.responseBuffer == StoreWords(Zeros(), words)
    ensures transport == Rtu ==> dev.cacheBase == base
  {
    dev := new ModbusDevice("device", transport);
    var longRead := new ModbusReg(dev, NoRegister, base, "long read", "", "", LongRead, 0);
    var result, sent := longRead.ReadReg(false, Reply(Success, words));
  }

  /**
   * A failed long read makes every later cached read on the device fail
   * with the cache-unavailable code and no transaction, even though an
   * earlier long read had filled the cache.
   */
  method CachedReadAfterFailedLongRead(transport: Transport, base: int, addr: int, kind: DataKind,
                                       earlier: seq<bv16>, status: bv8)
    returns (result: bv8, sent: Option<Request>, text: Display)
    requires status != Success
    ensures result == CacheUnavailable && sent == None && text == Text(NaNText)
  {
    var dev := new ModbusDevice("device", transport);
    var longRead := new ModbusReg(dev, NoRegister, base, "long read", "", "", LongRead, 0);
    var r1, _ := longRead.ReadReg(false, Reply(Success, earlier));
    assert dev.cachedDataOk;
    var r2, _ := longRead.ReadReg(false, Reply(status, []));
    assert !dev.cachedDataOk;
    var chan := new ModbusReg(dev, HoldingReg, addr, "channel", "", "", kind, 0);
    result, sent := chan.ReadReg(true, Reply(Success, []));
    text := chan.strbuf;
  }

  /** Repeating a direct read that gets the same reply gives the same value and text. */
  method RepeatedDirectRead(transport: Transport, regType: RegType, addr: int, kind: DataKind, reply: Reply)
    returns (v1: RegValue, t1: Display, v2: RegValue, t2: Display)
    ensures v1 == v2 && t1 == t2
  {
    var dev := new ModbusDevice("device", transport);
    var chan := new ModbusReg(dev, regType, addr, "channel", "", "", kind, 0);
    var _, _ := chan.ReadReg(false, reply);
    v1, t1 := chan.value, chan.strbuf;
    ghost var buf := dev.responseBuffer;
    var _, _ := chan.ReadReg(false, reply);
    v2, t2 := chan.value, chan.strbuf;
    if reply.status == Success && kind != LongRead {
      StoreWordsTwice(buf, reply.words);
      assert dev.responseBuffer == buf;
    }
  }
}

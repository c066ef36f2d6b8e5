/**
 * The flash writer of the LCD driver (write_rawimage_to_flash in pylcdsysinfo.py): sectors of
 * 16 pages, pages of 4 chunks, chunks of 64 bytes, with a checksum handshake per page.
 */
module LcdFlash {
  type byte = x: int | 0 <= x < 256

  /** What goes over the bus: a flash command with its address, a 64-byte chunk, or a checksum request. */
  datatype Command = Flash(address: int, command: int) | Chunk(data: seq<byte>, index: int) | GetChecksum

  const WRITE_ENABLE := 5
  const WRITE_DISABLE := 1
  const ERASE_SECTOR := 2
  const PROGRAM_PAGE := 3

  datatype Outcome = Written | BadHeader | BadSize | ChecksumError(page: nat)

  // ---------- What the device should receive ----------

  function ByteAt(raw: seq<byte>, i: nat): byte {
    if i < |raw| then raw[i] else 0
  }

  /** Bytes lo to hi of the file, continued with zeros. */
  function Bytes(raw: seq<byte>, lo: nat, hi: nat): (b: seq<byte>)
    requires lo <= hi
    ensures |b| == hi - lo
    ensures forall k :: 0 <= k < hi - lo ==> b[k] == ByteAt(raw, lo + k)
  {
    seq<byte>(hi - lo, k requires 0 <= k => ByteAt(raw, lo + k))
  }

  function Sum(b: seq<byte>): nat {
    if b == [] then 0 else Sum(b[..|b| - 1]) + b[|b| - 1]
  }

  /** The checksum of page p: the sum of the 256 bytes sent for it. */
  function PageSum(raw: seq<byte>, p: nat): nat {
    Sum(Bytes(raw, 256 * p, 256 * p + 256))
  }

  function PageCount(raw: seq<byte>): nat {
    16 * (1 + |raw| / 4096)
  }

  function Chunks(raw: seq<byte>, p: nat, n: nat): seq<Command> {
    if n == 0 then [] else Chunks(raw, p, n - 1) + [Chunk(Bytes(raw, 256 * p + 64 * (n - 1), 256 * p + 64 * n), n - 1)]
  }

  function PageLog(raw: seq<byte>, sector: int, p: nat): seq<Command> {
    Chunks(raw, p, 4) + [GetChecksum] + [Flash(sector * 16 + p, PROGRAM_PAGE)]
  }

  function Erase(sector: int, p: nat): seq<Command> {
    if p % 16 == 0 then [Flash(sector + p / 16, ERASE_SECTOR)] else []
  }

  function PagesLog(raw: seq<byte>, sector: int, n: nat): seq<Command> {
    if n == 0 then [] else PagesLog(raw, sector, n - 1) + Erase(sector, n - 1) + PageLog(raw, sector, n - 1)
  }

  /** What has gone out when the checksum of page p does not agree. */
  function FailedLog(raw: seq<byte>, sector: int, p: nat): seq<Command> {
    PagesLog(raw, sector, p) + Erase(sector, p) + (Chunks(raw, p, 4) + [GetChecksum])
  }

  function FullLog(raw: seq<byte>, sector: int): seq<Command> {
    [Flash(0, WRITE_ENABLE)] + PagesLog(raw, sector, PageCount(raw)) + [Flash(0, WRITE_DISABLE)]
  }

  predicate SizesFit(raw: seq<byte>)
    requires |raw| >= 6
  {
    var width, height := raw[2] as int * 256 + raw[3] as int, raw[4] as int * 256 + raw[5] as int;
    (width == 36 && height == 36) || (width == 320 && height == 240)
  }

  /** The header bytes of an image of 36 by 36 or of 320 by 240 pixels. */
  lemma HeaderFits(raw: seq<byte>)
    requires |raw| >= 6
    ensures SizesFit(raw) <==> raw[2..6] == [0, 36, 0, 36] || raw[2..6] == [1, 64, 0, 240]
  {
    assert raw[2..6] == [raw[2], raw[3], raw[4], raw[5]];
  }

  /** The flash commands of a write in their bus codes: 5 and 1 around it, 2 at each sector, 3 after each page. */
  lemma CommandsOf(raw: seq<byte>, sector: int, p: nat)
    ensures var full := FullLog(raw, sector); full[0] == Flash(0, 5) && full[|full| - 1] == Flash(0, 1)
    ensures Erase(sector, 16 * p) == [Flash(sector + p, 2)]
    ensures var page := PageLog(raw, sector, p);
            && |page| == 6 && page[4..] == [GetChecksum, Flash(16 * sector + p, 3)]
            && forall i :: 0 <= i < 4 ==> page[i] == Chunk(Bytes(raw, 256 * p + 64 * i, 256 * p + 64 * i + 64), i)
  {
    ChunksAre(raw, p, 4);
  }

  lemma {:induction false} ChunksAre(raw: seq<byte>, p: nat, n: nat)
    ensures |Chunks(raw, p, n)| == n
    ensures forall i :: 0 <= i < n ==> Chunks(raw, p, n)[i] == Chunk(Bytes(raw, 256 * p + 64 * i, 256 * p + 64 * i + 64), i)
  {
    if n > 0 {
      ChunksAre(raw, p, n - 1);
    }
  }

  // ---------- The writer ----------

  class Lcd {
    var log: seq<Command>
    const device: nat -> int // the checksum that the device answers for its n-th page

    constructor (device: nat -> int)
      ensures log == [] && this.device == device
    {
      this.device := device;
      log := [];
    }

    /** The device answers for each page from lo to hi with the checksum of what was sent. */
    ghost predicate Agrees(raw: seq<byte>, lo: nat, hi: nat) {
      forall p: nat :: lo <= p < hi ==> device(p) == PageSum(raw, p)
    }

    method SendChunk(raw: seq<byte>, fileIndex: nat, chunk: nat) returns (next: nat)
      modifies this
      ensures log == old(log) + [Chunk(Bytes(raw, fileIndex, fileIndex + 64), chunk)]
      ensures next == fileIndex + 64
    {
      var temp := new byte[64](_ => 0);
      next := fileIndex;
      for k := 0 to 64
        invariant next == fileIndex + k && log == old(log)
        invariant forall x :: 0 <= x < 64 ==> temp[x] == if x < k then ByteAt(raw, fileIndex + x) else 0
      {
        if next < |raw| {
          temp[k] := raw[next];
        }
        next := next + 1;
      }
      var data := temp[..];
      assert data == Bytes(raw, fileIndex, fileIndex + 64);
      log := log + [Chunk(data, chunk)];
    }

    /** The sum over the part of the file that page p takes. */
    method LocalChecksum(raw: seq<byte>, p: nat) returns (sum: nat)
      ensures sum == PageSum(raw, p)
    {
      sum := 0;
      var fileIndex := 256 * p + 256;
      var hi := if fileIndex < |raw| then fileIndex else |raw|;
      var i := fileIndex - 256;
      while i < hi
        invariant 256 * p <= i && (i <= hi || i == 256 * p)
        invariant sum == Sum(Bytes(raw, 256 * p, i))
      {
        assert Bytes(raw, 256 * p, i + 1)[..i - 256 * p] == Bytes(raw, 256 * p, i);
        sum := sum + raw[i];
        i := i + 1;
      }
      TailIsZero(raw, 256 * p, i, fileIndex);
    }

    /** Send page p to the device's buffer and compare checksums. */
    method SendPage(raw: seq<byte>, p: nat) returns (ok: bool)
      modifies this
      ensures ok <==> device(p) == PageSum(raw, p)
      ensures log == old(log) + (Chunks(raw, p, 4) + [GetChecksum])
    {
      var fileIndex := 256 * p;
      for chunk := 0 to 4
        invariant fileIndex == 256 * p + 64 * chunk
        invariant log == old(log) + Chunks(raw, p, chunk)
      {
        fileIndex := SendChunk(raw, fileIndex, chunk);
      }
      log := log + [GetChecksum];
      var deviceChecksum := device(p);
      var localChecksum := LocalChecksum(raw, p);
      ok := deviceChecksum == localChecksum;
    }

    method WritePage(raw: seq<byte>, sector: int, p: nat) returns (ok: bool)
      modifies this
      ensures ok <==> device(p) == PageSum(raw, p)
      ensures log == old(log) + if ok then PageLog(raw, sector, p) else Chunks(raw, p, 4) + [GetChecksum]
    {
      ok := SendPage(raw, p);
      if ok {
        log := log + [Flash(sector * 16 + p, PROGRAM_PAGE)];
      }
    }

    /** Erase sector s of the image and write its pages up to the first mismatch. */
    method WriteSector(raw: seq<byte>, sector: int, s: nat, ghost base: seq<Command>) returns (pages: nat)
      requires log == base + PagesLog(raw, sector, 16 * s)
      modifies this
      ensures pages <= 16 && Agrees(raw, 16 * s, 16 * s + pages)
      ensures pages < 16 ==> device(16 * s + pages) != PageSum(raw, 16 * s + pages)
      ensures log == base + if pages == 16 then PagesLog(raw, sector, 16 * s + 16) else FailedLog(raw, sector, 16 * s + pages)
    {
      log := log + [Flash(sector + s, ERASE_SECTOR)];
      pages := 0;
      while pages < 16
        invariant pages <= 16
        invariant log == base + BeforePage(raw, sector, s, pages)
        invariant Agrees(raw, 16 * s, 16 * s + pages)
      {
        SectorSteps(raw, sector, s, pages, base);
        var ok := WritePage(raw, sector, 16 * s + pages);
        if !ok {
          return;
        }
        pages := pages + 1;
      }
    }

    /**
     * Writes the image. A checksum mismatch ends it before that page is programmed, with the
     * flash still write-enabled.
     */
    method WriteRawImage(sector: int, raw: seq<byte>, checkSizes: bool) returns (r: Outcome)
      modifies this
      ensures r == BadHeader <==> |raw| < 6
      ensures r == BadSize <==> |raw| >= 6 && checkSizes && raw[2..6] != [0, 36, 0, 36] && raw[2..6] != [1, 64, 0, 240]
      ensures r == BadHeader || r == BadSize ==> log == old(log)
      ensures r == Written ==> log == old(log) + FullLog(raw, sector)
      ensures r == Written ==> Agrees(raw, 0, PageCount(raw))
      ensures r.ChecksumError? ==> r.page < PageCount(raw) && device(r.page) != PageSum(raw, r.page)
      ensures r.ChecksumError? ==> Agrees(raw, 0, r.page)
      ensures r.ChecksumError? ==> log == old(log) + [Flash(0, WRITE_ENABLE)] + FailedLog(raw, sector, r.page)
    {
      if |raw| < 6 {
        return BadHeader;
      }
      HeaderFits(raw);
      if checkSizes && !SizesFit(raw) {
        return BadSize;
      }
      log := log + [Flash(0, WRITE_ENABLE)];
      ghost var base := log;
      var sectors := 1 + |raw| / 4096;
      assert PageCount(raw) == 16 * sectors;
      for s := 0 to sectors
        invariant log == base + PagesLog(raw, sector, 16 * s)
        invariant Agrees(raw, 0, 16 * s)
      {
        var pages := WriteSector(raw, sector, s, base);
        if pages < 16 {
          return ChecksumError(16 * s + pages);
        }
      }
      log := log + [Flash(0, WRITE_DISABLE)];
      assert log == old(log) + FullLog(raw, sector);
      r := Written;
    }
  }

  /** What has gone out before page number `page` of sector s of the image is handled. */
  function BeforePage(raw: seq<byte>, sector: int, s: nat, page: nat): seq<Command> {
    PagesLog(raw, sector, 16 * s + page) + if page == 0 then [Flash(sector + s, ERASE_SECTOR)] else []
  }

  /** Handling a page takes what has gone out to the next page, or to what a mismatch leaves. */
  lemma SectorSteps(raw: seq<byte>, sector: int, s: nat, page: nat, base: seq<Command>)
    requires page < 16
    ensures base + BeforePage(raw, sector, s, page) + PageLog(raw, sector, 16 * s + page)
            == base + BeforePage(raw, sector, s, page + 1)
    ensures base + BeforePage(raw, sector, s, page) + (Chunks(raw, 16 * s + page, 4) + [GetChecksum])
            == base + FailedLog(raw, sector, 16 * s + page)
  {
    var p := 16 * s + page;
    ErasedOncePerSector(sector, s, page);
    var before := PagesLog(raw, sector, p) + Erase(sector, p);
    assert before == BeforePage(raw, sector, s, page);
    Regroup(base, before, PageLog(raw, sector, p));
    assert PagesLog(raw, sector, p + 1) + [] == PagesLog(raw, sector, p + 1);
    Regroup(base, before, Chunks(raw, p, 4) + [GetChecksum]);
  }

  lemma Regroup(a: seq<Command>, b: seq<Command>, c: seq<Command>)
    ensures a + b + c == a + (b + c)
  {
  }

  lemma ErasedOncePerSector(sector: int, s: nat, page: nat)
    requires page < 16
    ensures Erase(sector, 16 * s + page) == if page == 0 then [Flash(sector + s, ERASE_SECTOR)] else []
  {
  }

  lemma {:induction false} TailIsZero(raw: seq<byte>, lo: nat, mid: nat, hi: nat)
    requires lo <= mid <= hi && (mid == hi || mid >= |raw|)
    ensures Sum(Bytes(raw, lo, hi)) == Sum(Bytes(raw, lo, mid))
    decreases hi - mid
  {
    if mid < hi {
      TailIsZero(raw, lo, mid + 1, hi);
      assert Bytes(raw, lo, mid + 1)[..mid - lo] == Bytes(raw, lo, mid);
    }
  }

  lemma {:induction false} SumIsBounded(b: seq<byte>)
    ensures Sum(b) <= 255 * |b|
  {
    if b != [] {
      SumIsBounded(b[..|b| - 1]);
    }
  }

  /** Every page checksum fits the two bytes in which the device returns its own. */
  lemma ChecksumFitsTwoBytes(raw: seq<byte>, p: nat)
    ensures PageSum(raw, p) <= 65280 < 0x1_0000
  {
    SumIsBounded(Bytes(raw, 256 * p, 256 * p + 256));
  }

  // ---------- What the commands do to the flash ----------

  /** A page of the flash: as it was before the writer started, erased, programmed, or programmed over. */
  datatype Page = Untouched | Blank | Data(bytes: seq<byte>) | Corrupt

  datatype Device = Device(enabled: bool, buffer: seq<seq<byte>>, pages: map<int, Page>)

  predicate DeviceOk(d: Device) {
    |d.buffer| == 4
  }

  function PageAt(d: Device, a: int): Page {
    if a in d.pages then d.pages[a] else Untouched
  }

  predicate InSector(a: int, sector: int) {
    16 * sector <= a < 16 * sector + 16
  }

  /** The device side of one command; only an erased page of an enabled flash can be programmed. */
  function Execute(d: Device, c: Command): (r: Device)
    requires DeviceOk(d)
    ensures DeviceOk(r)
  {
    match c
    case Chunk(data, index) => if 0 <= index < 4 then d.(buffer := d.buffer[index := data]) else d
    case GetChecksum => d
    case Flash(address, command) =>
      if command == WRITE_ENABLE then d.(enabled := true)
      else if command == WRITE_DISABLE then d.(enabled := false)
      else if command == ERASE_SECTOR && d.enabled then
        d.(pages := d.pages + map a | 16 * address <= a < 16 * address + 16 && InSector(a, address) :: Blank)
      else if command == PROGRAM_PAGE && d.enabled then
        d.(pages := d.pages[address := if PageAt(d, address) == Blank then Data(d.buffer[0] + d.buffer[1] + d.buffer[2] + d.buffer[3]) else Corrupt])
      else d
  }

  function Run(d: Device, log: seq<Command>): (r: Device)
    requires DeviceOk(d)
    ensures DeviceOk(r)
  {
    if log == [] then d else Execute(Run(d, log[..|log| - 1]), log[|log| - 1])
  }

  lemma {:induction false} RunConcat(d: Device, a: seq<Command>, b: seq<Command>)
    requires DeviceOk(d)
    ensures Run(d, a + b) == Run(Run(d, a), b)
    decreases |b|
  {
    if b == [] {
      assert a + b == a;
    } else {
      assert (a + b)[..|a + b| - 1] == a + b[..|b| - 1];
      RunConcat(d, a, b[..|b| - 1]);
    }
  }

  function Filled(buffer: seq<seq<byte>>, raw: seq<byte>, p: nat, n: nat): (r: seq<seq<byte>>)
    requires |buffer| == 4 && n <= 4
    ensures |r| == 4
  {
    if n == 0 then buffer
    else Filled(buffer, raw, p, n - 1)[n - 1 := Bytes(raw, 256 * p + 64 * (n - 1), 256 * p + 64 * n)]
  }

  lemma {:induction false} ChunksFillBuffer(d: Device, raw: seq<byte>, p: nat, n: nat)
    requires DeviceOk(d) && n <= 4
    ensures Run(d, Chunks(raw, p, n)) == d.(buffer := Filled(d.buffer, raw, p, n))
    decreases n
  {
    if n > 0 {
      ChunksFillBuffer(d, raw, p, n - 1);
      var c := Chunks(raw, p, n);
      assert c[..|c| - 1] == Chunks(raw, p, n - 1);
    }
  }

  lemma FourChunks(buffer: seq<seq<byte>>, raw: seq<byte>, p: nat)
    requires |buffer| == 4
    ensures var b := Filled(buffer, raw, p, 4); b[0] + b[1] + b[2] + b[3] == Bytes(raw, 256 * p, 256 * p + 256)
  {
    var q := 256 * p;
    var b1 := Filled(buffer, raw, p, 1);
    var b2 := Filled(buffer, raw, p, 2);
    var b3 := Filled(buffer, raw, p, 3);
    assert b1[0] == Bytes(raw, q, q + 64) && b2[0] == b1[0] && b3[0] == b2[0];
    assert b2[1] == Bytes(raw, q + 64, q + 128) && b3[1] == b2[1];
    assert b3[2] == Bytes(raw, q + 128, q + 192);
    BytesJoin(raw, q);
  }

  lemma BytesJoin(raw: seq<byte>, lo: nat)
    ensures Bytes(raw, lo, lo + 64) + Bytes(raw, lo + 64, lo + 128) + Bytes(raw, lo + 128, lo + 192) + Bytes(raw, lo + 192, lo + 256)
            == Bytes(raw, lo, lo + 256)
  {
  }

  /** Handling one page programs exactly that page, with its 256 bytes of the file, if it is blank. */
  lemma PageIsProgrammed(d: Device, raw: seq<byte>, sector: int, p: nat)
    requires DeviceOk(d) && d.enabled && PageAt(d, sector * 16 + p) == Blank
    ensures var r := Run(d, PageLog(raw, sector, p));
            r.enabled && r.pages == d.pages[sector * 16 + p := Data(Bytes(raw, 256 * p, 256 * p + 256))]
  {
    var c := Chunks(raw, p, 4);
    ChunksFillBuffer(d, raw, p, 4);
    FourChunks(d.buffer, raw, p);
    assert (c + [GetChecksum])[..|c|] == c;
    var l := PageLog(raw, sector, p);
    assert l[..|l| - 1] == c + [GetChecksum];
  }

  /** n rounded up to whole sectors. */
  function WholeSectors(n: nat): nat {
    (n + 15) / 16 * 16
  }

  /** Page a after the first n pages of the image: the file, blank to the end of the sector, or as before. */
  function Expected(d: Device, raw: seq<byte>, sector: int, n: nat, blank: nat, a: int): Page {
    var p := a - sector * 16;
    if 0 <= p < n then Data(Bytes(raw, 256 * p, 256 * p + 256))
    else if n <= p < blank then Blank
    else PageAt(d, a)
  }

  ghost predicate Progress(d: Device, r: Device, raw: seq<byte>, sector: int, n: nat, blank: nat) {
    r.enabled && forall a :: PageAt(r, a) == Expected(d, raw, sector, n, blank, a)
  }

  lemma EraseAt(r: Device, s: int, a: int)
    requires DeviceOk(r) && r.enabled
    ensures var e := Run(r, [Flash(s, ERASE_SECTOR)]);
            e.enabled && PageAt(e, a) == if InSector(a, s) then Blank else PageAt(r, a)
  {
    var c := Flash(s, ERASE_SECTOR);
    assert [c][..0] == [] && Run(r, []) == r;
    assert Run(r, [c]) == Execute(r, c);
  }

  lemma EraseBegins(sector: int, n: nat)
    requires n % 16 == 0
    ensures WholeSectors(n) == n && WholeSectors(n + 1) == n + 16 && 16 * (sector + n / 16) == sector * 16 + n
    ensures Erase(sector, n) == [Flash(sector + n / 16, ERASE_SECTOR)]
  {
  }

  lemma SectorGoesOn(sector: int, n: nat)
    requires n % 16 != 0
    ensures n < WholeSectors(n) == WholeSectors(n + 1) && Erase(sector, n) == []
  {
  }

  /** At the first page of a sector: its 16 pages become blank. */
  lemma EraseIsExpected(d: Device, r: Device, raw: seq<byte>, sector: int, n: nat, s: int)
    requires DeviceOk(r) && Progress(d, r, raw, sector, n, n) && 16 * s == sector * 16 + n
    ensures Progress(d, Run(r, [Flash(s, ERASE_SECTOR)]), raw, sector, n, n + 16)
  {
    var e := Run(r, [Flash(s, ERASE_SECTOR)]);
    EraseAt(r, s, 0);
    forall a
      ensures PageAt(e, a) == Expected(d, raw, sector, n, n + 16, a)
    {
      EraseAt(r, s, a);
      assert PageAt(r, a) == Expected(d, raw, sector, n, n, a);
    }
  }

  lemma ErasesOwnSector(d: Device, r: Device, raw: seq<byte>, sector: int, n: nat, lo: nat, hi: nat)
    requires DeviceOk(r) && Progress(d, r, raw, sector, n, lo) && lo == WholeSectors(n) && hi == WholeSectors(n + 1)
    ensures n < hi && Progress(d, Run(r, Erase(sector, n)), raw, sector, n, hi)
  {
    if n % 16 == 0 {
      EraseBegins(sector, n);
      assert lo == n && hi == n + 16;
      EraseIsExpected(d, r, raw, sector, n, sector + n / 16);
    } else {
      SectorGoesOn(sector, n);
      assert Run(r, []) == r;
    }
  }

  lemma RunPage(d: Device, raw: seq<byte>, sector: int, n: nat)
    requires DeviceOk(d)
    ensures Run(d, PagesLog(raw, sector, n + 1)) == Run(Run(Run(d, PagesLog(raw, sector, n)), Erase(sector, n)), PageLog(raw, sector, n))
  {
    RunConcat(d, PagesLog(raw, sector, n), Erase(sector, n));
    RunConcat(d, PagesLog(raw, sector, n) + Erase(sector, n), PageLog(raw, sector, n));
  }

  lemma {:induction false} PagesAreProgrammed(d: Device, raw: seq<byte>, sector: int, n: nat)
    requires DeviceOk(d) && d.enabled
    ensures Progress(d, Run(d, PagesLog(raw, sector, n)), raw, sector, n, WholeSectors(n))
    decreases n
  {
    if n > 0 {
      var r := Run(d, PagesLog(raw, sector, n - 1));
      PagesAreProgrammed(d, raw, sector, n - 1);
      ErasesOwnSector(d, r, raw, sector, n - 1, WholeSectors(n - 1), WholeSectors(n));
      RunPage(d, raw, sector, n - 1);
      NextPage(d, Run(r, Erase(sector, n - 1)), raw, sector, n - 1, WholeSectors(n));
    }
  }

  lemma NextPage(d: Device, e: Device, raw: seq<byte>, sector: int, n: nat, blank: nat)
    requires DeviceOk(e) && n < blank && Progress(d, e, raw, sector, n, blank)
    ensures Progress(d, Run(e, PageLog(raw, sector, n)), raw, sector, n + 1, blank)
  {
    assert PageAt(e, sector * 16 + n) == Expected(d, raw, sector, n, blank, sector * 16 + n);
    PageIsProgrammed(e, raw, sector, n);
    var r := Run(e, PageLog(raw, sector, n));
    forall a ensures PageAt(r, a) == Expected(d, raw, sector, n + 1, blank, a) {
      assert PageAt(e, a) == Expected(d, raw, sector, n, blank, a);
    }
  }

  /**
   * A completed write leaves the flash write-protected, with the file, followed by zeros to the end
   * of its last sector, in consecutive pages from the start of the given sector, and every other page
   * as it was.
   */
  lemma WrittenImageIsInFlash(d: Device, raw: seq<byte>, sector: int)
    requires DeviceOk(d)
    ensures var r := Run(d, FullLog(raw, sector));
            !r.enabled && forall a ::
              PageAt(r, a) ==
              if 16 * sector <= a < 16 * (sector + 1 + |raw| / 4096) then Data(Bytes(raw, 256 * (a - 16 * sector), 256 * (a - 16 * sector) + 256))
              else PageAt(d, a)
    ensures |raw| < 256 * PageCount(raw) == 4096 * (1 + |raw| / 4096)
  {
    var n := PageCount(raw);
    WrittenPages(d, raw, sector, n);
    var r := Run(d, FullLog(raw, sector));
    forall a ensures PageAt(r, a) ==
                     if 16 * sector <= a < 16 * (sector + 1 + |raw| / 4096) then Data(Bytes(raw, 256 * (a - 16 * sector), 256 * (a - 16 * sector) + 256))
                     else PageAt(d, a)
    {
      assert PageAt(r, a) == Expected(d, raw, sector, n, n, a);
    }
  }

  lemma WrittenPages(d: Device, raw: seq<byte>, sector: int, n: nat)
    requires DeviceOk(d) && n == PageCount(raw)
    ensures var r := Run(d, FullLog(raw, sector));
            !r.enabled && forall a :: PageAt(r, a) == Expected(d, raw, sector, n, n, a)
  {
    var on := Flash(0, WRITE_ENABLE);
    var off := Flash(0, WRITE_DISABLE);
    var pages := PagesLog(raw, sector, n);
    assert [on][..0] == [] && [off][..0] == [];
    assert Run(d, [on]) == Execute(d, on);
    PagesAreProgrammed(d.(enabled := true), raw, sector, n);
    assert WholeSectors(n) == n;
    RunConcat(d, [on], pages);
    RunConcat(d, [on] + pages, [off]);
    var r := Run(d, [on] + pages);
    assert Run(r, [off]) == Execute(r, off);
    forall a ensures PageAt(Run(r, [off]), a) == Expected(d, raw, sector, n, n, a) {
      assert PageAt(r, a) == Expected(d.(enabled := true), raw, sector, n, n, a);
    }
  }

  lemma MismatchPages(e: Device, raw: seq<byte>, sector: int, n: nat, hi: nat)
    requires DeviceOk(e) && e.enabled && hi == WholeSectors(n + 1)
    ensures Progress(e, Run(e, FailedLog(raw, sector, n)), raw, sector, n, hi)
  {
    PagesAreProgrammed(e, raw, sector, n);
    var p := Run(e, PagesLog(raw, sector, n));
    ErasesOwnSector(e, p, raw, sector, n, WholeSectors(n), hi);
    var b := Run(p, Erase(sector, n));
    ChecksumAfterChunks(e, raw, sector, n);
    ChunksFillBuffer(b, raw, n, 4);
    var r := Run(e, FailedLog(raw, sector, n));
    forall a ensures PageAt(r, a) == Expected(e, raw, sector, n, hi, a) {
      assert PageAt(b, a) == Expected(e, raw, sector, n, hi, a);
    }
  }

  /**
   * A write that a mismatch ends at page n leaves the pages before it programmed, those from it to the end
   * of its sector blank, every other page as it was, and the flash enabled.
   */
  lemma MismatchLeaves(d: Device, raw: seq<byte>, sector: int, n: nat)
    requires DeviceOk(d)
    ensures var r := Run(d, [Flash(0, WRITE_ENABLE)] + FailedLog(raw, sector, n));
            r.enabled && forall a ::
              PageAt(r, a) ==
              if 16 * sector <= a < 16 * sector + n then Data(Bytes(raw, 256 * (a - 16 * sector), 256 * (a - 16 * sector) + 256))
              else if 16 * sector + n <= a < 16 * (sector + n / 16 + 1) then Blank
              else PageAt(d, a)
  {
    var on := Flash(0, WRITE_ENABLE);
    var e := d.(enabled := true);
    assert [on][..0] == [];
    assert Run(d, [on]) == Execute(d, on) == e;
    RunConcat(d, [on], FailedLog(raw, sector, n));
    MismatchPages(e, raw, sector, n, 16 * (n / 16) + 16);
    var r := Run(d, [on] + FailedLog(raw, sector, n));
    forall a ensures PageAt(r, a) ==
                     if 16 * sector <= a < 16 * sector + n then Data(Bytes(raw, 256 * (a - 16 * sector), 256 * (a - 16 * sector) + 256))
                     else if 16 * sector + n <= a < 16 * (sector + n / 16 + 1) then Blank
                     else PageAt(d, a)
    {
      assert PageAt(r, a) == Expected(e, raw, sector, n, 16 * (n / 16) + 16, a);
    }
  }

  lemma ChecksumAfterChunks(e: Device, raw: seq<byte>, sector: int, n: nat)
    requires DeviceOk(e)
    ensures Run(e, FailedLog(raw, sector, n)) == Run(Run(Run(e, PagesLog(raw, sector, n)), Erase(sector, n)), Chunks(raw, n, 4))
  {
    var chunks := Chunks(raw, n, 4);
    RunConcat(e, PagesLog(raw, sector, n), Erase(sector, n));
    RunConcat(e, PagesLog(raw, sector, n) + Erase(sector, n), chunks + [GetChecksum]);
    assert (chunks + [GetChecksum])[..|chunks|] == chunks;
  }

  // ---------- Sums ----------

  /** Checksums add up: the order and the grouping of the bytes do not matter. */
  lemma {:induction false} SumAdds(a: seq<byte>, b: seq<byte>, x: byte)
    ensures Sum(a + b) == Sum(a) + Sum(b) && Sum([x]) == x
    decreases |b|
  {
    assert [x][..0] == [];
    if b == [] {
      assert a + b == a;
    } else {
      assert (a + b)[..|a + b| - 1] == a + b[..|b| - 1];
      SumAdds(a, b[..|b| - 1], x);
    }
  }
}

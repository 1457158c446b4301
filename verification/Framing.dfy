/** The encrypted backup file: a header, then the data in chunks, each sealed
    under its own number and the last one marked (backup.py). */
module Framing {
  import opened Prelude

  type byte = x: int | 0 <= x < 256

  type Bytes = seq<byte>

  const MAGIC: Bytes := [83, 80, 65, 82, 75, 66, 75, 49]
  const CHUNK := 1048576
  const TAG := 16
  const SCRYPT_LOG_N := 15
  const SCRYPT_R := 8
  const SCRYPT_P := 1
  const HEADER_SIZE := 34
  const COUNTERS := 0x1_0000_0000

  datatype Error = NotABackup | NotEncrypted | CutShort | WrongPassphrase | Damaged(part: nat) | TooLarge

  datatype Result<T> = Ok(value: T) | Err(error: Error)

  /** An authenticated cipher under one key. */
  datatype Cipher = Cipher(seal: (Bytes, Bytes, Bytes) -> Bytes, open: (Bytes, Bytes, Bytes) -> Option<Bytes>) {
    function Seal(nonce: Bytes, plain: Bytes, header: Bytes): Bytes {
      seal(nonce, plain, header)
    }

    function Open(nonce: Bytes, block: Bytes, header: Bytes): Option<Bytes> {
      open(nonce, block, header)
    }

    /** What is sealed opens again, and is longer by the tag. */
    ghost predicate Correct() {
      forall nonce, plain, header ::
        && |Seal(nonce, plain, header)| == |plain| + TAG
        && Open(nonce, Seal(nonce, plain, header), header) == Some(plain)
    }
  }

  /** Deriving a key from a passphrase and the header's parameters. */
  type KeyDerivation = (string, Bytes, byte, byte, byte) -> Cipher

  predicate KeyAllowed(logN: byte, r: byte, p: byte) {
    10 <= logN <= 20 && 1 <= r <= 16 && 1 <= p <= 4
  }

  function BigEndian(n: nat): Bytes
    requires n < COUNTERS
  {
    [n / 0x100_0000, n / 0x1_0000 % 0x100, n / 0x100 % 0x100, n % 0x100]
  }

  function Nonce(prefix: Bytes, counter: nat, last: bool): Bytes
    requires counter < COUNTERS
  {
    prefix + BigEndian(counter) + [if last then 1 else 0]
  }

  function Header(logN: byte, r: byte, p: byte, salt: Bytes, prefix: Bytes): Bytes {
    MAGIC + [logN, r, p] + salt + prefix
  }

  // -------------------------------------------------------------------- the streams

  class Reader {
    const data: Bytes
    var position: nat

    ghost predicate Valid()
      reads this
    {
      position <= |data|
    }

    constructor (data: Bytes)
      ensures Valid() && this.data == data && position == 0
    {
      this.data, position := data, 0;
    }

    /** Up to `n` bytes; fewer only at the end, none only past it. */
    method Read(n: nat) returns (bytes: Bytes)
      requires Valid()
      modifies this`position
      ensures Valid() && bytes == FirstOf(data[old(position)..], n)
              && data[position..] == AfterFirst(data[old(position)..], n)
    {
      var upTo := Min(position + n, |data|);
      bytes := data[position..upTo];
      position := upTo;
    }
  }

  function FirstOf(s: Bytes, n: nat): Bytes {
    if |s| <= n then s else s[..n]
  }

  function AfterFirst(s: Bytes, n: nat): Bytes {
    if |s| <= n then [] else s[n..]
  }

  // ------------------------------------------------------------------- parts of a stream

  /** A stream cut into reads of `size`: never none at all, and only the last is
      short. */
  function Parts(s: Bytes, size: nat): (parts: seq<Bytes>)
    requires size > 0
    ensures parts != []
  {
    if |s| <= size then [s] else [s[..size]] + Parts(s[size..], size)
  }

  function Joined(parts: seq<Bytes>): Bytes {
    if parts == [] then [] else parts[0] + Joined(parts[1..])
  }

  /** Parts that reads of `size` would give back: all full but the last, which is
      not empty unless it is all there is. */
  ghost predicate Regular(parts: seq<Bytes>, size: nat) {
    && parts != []
    && (forall i :: 0 <= i < |parts| - 1 ==> |parts[i]| == size)
    && |parts[|parts| - 1]| <= size && (|parts| > 1 ==> parts[|parts| - 1] != [])
  }

  lemma {:induction false} PartsAreRegular(s: Bytes, size: nat)
    requires size > 0
    ensures Regular(Parts(s, size), size) && Joined(Parts(s, size)) == s
    decreases |s|
  {
    if |s| > size {
      var rest := Parts(s[size..], size);
      PartsAreRegular(s[size..], size);
      assert Parts(s, size)[1..] == rest;
    } else {
      assert Parts(s, size)[1..] == [];
    }
  }

  lemma {:induction false} LongerThanPart(parts: seq<Bytes>, size: nat)
    requires size > 0 && Regular(parts, size)
    ensures |parts| > 1 <==> |Joined(parts)| > size
    decreases |parts|
  {
    if |parts| > 2 {
      LongerThanPart(parts[1..], size);
    } else if |parts| == 2 {
      assert parts[1..][1..] == [];
    } else {
      assert parts[1..] == [];
    }
  }

  /** Cutting up what was joined gives the parts back. */
  lemma {:induction false} RegularPartsComeBack(parts: seq<Bytes>, size: nat)
    requires size > 0 && Regular(parts, size)
    ensures Parts(Joined(parts), size) == parts
    decreases |parts|
  {
    LongerThanPart(parts, size);
    if |parts| > 1 {
      RegularPartsComeBack(parts[1..], size);
      assert Joined(parts)[size..] == Joined(parts[1..]);
      assert Joined(parts)[..size] == parts[0];
    } else {
      assert parts[1..] == [] && parts[0] + [] == parts[0];
      assert parts == [parts[0]];
    }
  }

  lemma {:induction false} JoinedMore(parts: seq<Bytes>, part: Bytes)
    ensures Joined(parts + [part]) == Joined(parts) + part
    decreases |parts|
  {
    if parts == [] {
      assert ([part])[1..] == [];
      assert [] + [part] == [part];
    } else {
      assert (parts + [part])[1..] == parts[1..] + [part];
      JoinedMore(parts[1..], part);
    }
  }

  /** The part in hand and what is still to be read, as part `i` of them all. */
  ghost predicate AtPart(part: Bytes, rest: Bytes, size: nat, parts: seq<Bytes>, i: nat)
    requires size > 0
  {
    i < |parts| && parts[i] == part
    && if rest == [] then i == |parts| - 1 else i < |parts| - 1 && parts[i + 1..] == Parts(rest, size)
  }

  lemma FirstPart(s: Bytes, size: nat)
    requires size > 0
    ensures AtPart(FirstOf(s, size), AfterFirst(s, size), size, Parts(s, size), 0)
  {
  }

  lemma NextPart(part: Bytes, rest: Bytes, size: nat, parts: seq<Bytes>, i: nat)
    requires size > 0 && AtPart(part, rest, size, parts, i) && rest != []
    ensures AtPart(FirstOf(rest, size), AfterFirst(rest, size), size, parts, i + 1)
  {
    FirstPart(rest, size);
    var more := Parts(rest, size);
    assert parts[i + 1] == more[0];
    assert parts[i + 2..] == more[1..];
  }

  // ------------------------------------------------------------------ sealing and opening

  /** What one file is sealed under. */
  datatype Envelope = Envelope(cipher: Cipher, header: Bytes, prefix: Bytes) {
    /** Chunk `i`, the last one or not. */
    function Seal(i: nat, last: bool, chunk: Bytes): Bytes
      requires i < COUNTERS
    {
      cipher.Seal(Nonce(prefix, i, last), chunk, header)
    }

    function Open(i: nat, last: bool, block: Bytes): Option<Bytes>
      requires i < COUNTERS
    {
      cipher.Open(Nonce(prefix, i, last), block, header)
    }
  }

  /** The blocks of the first `n` chunks. */
  function Blocks(e: Envelope, chunks: seq<Bytes>, n: nat): (blocks: seq<Bytes>)
    requires n <= |chunks| && n <= COUNTERS
    ensures |blocks| == n
    ensures forall i :: 0 <= i < n ==> blocks[i] == e.Seal(i, i == |chunks| - 1, chunks[i])
  {
    if n == 0 then [] else Blocks(e, chunks, n - 1) + [e.Seal(n - 1, n == |chunks|, chunks[n - 1])]
  }

  function FileEnvelope(derive: KeyDerivation, passphrase: string, salt: Bytes, prefix: Bytes): Envelope {
    Envelope(derive(passphrase, salt, SCRYPT_LOG_N, SCRYPT_R, SCRYPT_P),
             Header(SCRYPT_LOG_N, SCRYPT_R, SCRYPT_P, salt, prefix), prefix)
  }

  /** The file written for some data. */
  function FileOf(e: Envelope, data: Bytes): Bytes
    requires |Parts(data, CHUNK)| <= COUNTERS
  {
    var chunks := Parts(data, CHUNK);
    e.header + Joined(Blocks(e, chunks, |chunks|))
  }

  /** The header and the first `n` blocks have been written. */
  ghost predicate WrittenSoFar(e: Envelope, chunks: seq<Bytes>, n: nat, target: Bytes) {
    n <= |chunks| && n <= COUNTERS && target == e.header + Joined(Blocks(e, chunks, n))
  }

  lemma WriteMore(e: Envelope, chunks: seq<Bytes>, n: nat, target: Bytes)
    requires WrittenSoFar(e, chunks, n, target) && n < |chunks| && n < COUNTERS
    ensures WrittenSoFar(e, chunks, n + 1, target + e.Seal(n, n == |chunks| - 1, chunks[n]))
  {
    var block := e.Seal(n, n == |chunks| - 1, chunks[n]);
    JoinedMore(Blocks(e, chunks, n), block);
    assert e.header + Joined(Blocks(e, chunks, n)) + block == e.header + (Joined(Blocks(e, chunks, n)) + block);
  }

  lemma WrittenNone(e: Envelope, chunks: seq<Bytes>)
    ensures WrittenSoFar(e, chunks, 0, e.header)
  {
  }

  /** Writing a file. */
  method Encrypt(source: Reader, passphrase: string, salt: Bytes, prefix: Bytes, derive: KeyDerivation)
    returns (target: Bytes, error: Option<Error>)
    requires source.Valid() && source.position == 0
    modifies source`position
    ensures error == if |Parts(source.data, CHUNK)| <= COUNTERS then None else Some(TooLarge)
    ensures error == None ==> target == FileOf(FileEnvelope(derive, passphrase, salt, prefix), source.data)
  {
    var e := FileEnvelope(derive, passphrase, salt, prefix);
    assert source.data[0..] == source.data;
    FirstPart(source.data, CHUNK);
    var chunk := source.Read(CHUNK);
    target, error := WriteChunks(source, e, chunk, Parts(source.data, CHUNK));
  }

  /** The writing loop: it needs to know that a chunk is the last to seal it. */
  method WriteChunks(source: Reader, e: Envelope, first: Bytes, ghost all: seq<Bytes>)
    returns (target: Bytes, error: Option<Error>)
    requires source.Valid() && AtPart(first, source.data[source.position..], CHUNK, all, 0)
    modifies source`position
    ensures error == if |all| <= COUNTERS then None else Some(TooLarge)
    ensures error == None ==> WrittenSoFar(e, all, |all|, target)
  {
    var counter: nat, chunk := 0, first;
    target, error := e.header, None;
    WrittenNone(e, all);
    while true
      invariant source.Valid() && counter < COUNTERS && counter < |all|
      invariant AtPart(chunk, source.data[source.position..], CHUNK, all, counter)
      invariant WrittenSoFar(e, all, counter, target)
      decreases |all| - counter
    {
      ghost var rest := source.data[source.position..];
      var following := source.Read(CHUNK);
      var last := following == [];
      WriteMore(e, all, counter, target);
      target := target + e.Seal(counter, last, chunk);
      if last {
        return target, None;
      }
      NextPart(chunk, rest, CHUNK, all, counter);
      counter := counter + 1;
      if counter >= COUNTERS {
        return target, Some(TooLarge);
      }
      chunk := following;
    }
  }

  // ------------------------------------------------------------------------ reading back

  /** What a file claims to be sealed under. */
  function ReadEnvelope(derive: KeyDerivation, passphrase: string, header: Bytes): Result<Envelope> {
    if |header| != HEADER_SIZE then Err(NotABackup)
    else if header[..8] != MAGIC then Err(NotEncrypted)
    else if !KeyAllowed(header[8], header[9], header[10]) then Err(NotABackup)
    else Ok(Envelope(derive(passphrase, header[11..27], header[8], header[9], header[10]), header, header[27..]))
  }

  /** Block `i` of a body, opened. */
  function OpenAt(e: Envelope, blocks: seq<Bytes>, i: nat): Option<Bytes>
    requires i < |blocks|
  {
    if |blocks[i]| < TAG || i >= COUNTERS then None else e.Open(i, i == |blocks| - 1, blocks[i])
  }

  function ErrorAt(blocks: seq<Bytes>, i: nat): Error
    requires i < |blocks|
  {
    if |blocks[i]| < TAG then CutShort
    else if i >= COUNTERS then TooLarge
    else if i == 0 then WrongPassphrase
    else Damaged(i + 1)
  }

  ghost predicate AllOpen(e: Envelope, blocks: seq<Bytes>, n: nat)
    requires n <= |blocks|
  {
    forall i :: 0 <= i < n ==> OpenAt(e, blocks, i).Some?
  }

  function Plains(e: Envelope, blocks: seq<Bytes>, n: nat): (plains: seq<Bytes>)
    requires n <= |blocks|
    ensures |plains| == n
    ensures forall i :: 0 <= i < n ==> plains[i] == OpenAt(e, blocks, i).GetOr([])
  {
    if n == 0 then [] else Plains(e, blocks, n - 1) + [OpenAt(e, blocks, n - 1).GetOr([])]
  }

  /** The first `n` blocks opened, and what they held was written out. */
  ghost predicate ReadSoFar(e: Envelope, blocks: seq<Bytes>, n: nat, target: Bytes) {
    n <= |blocks| && AllOpen(e, blocks, n) && target == Joined(Plains(e, blocks, n))
  }

  ghost predicate StoppedAt(e: Envelope, blocks: seq<Bytes>, n: nat, target: Bytes, error: Error) {
    ReadSoFar(e, blocks, n, target) && n < |blocks| && OpenAt(e, blocks, n).None? && error == ErrorAt(blocks, n)
  }

  ghost predicate ReadsBlocks(e: Envelope, blocks: seq<Bytes>, target: Bytes, error: Option<Error>) {
    match error
    case None => ReadSoFar(e, blocks, |blocks|, target)
    case Some(x) => exists n: nat :: StoppedAt(e, blocks, n, target, x)
  }

  /** What reading a file comes to: all of it, or what came before the first
      block that does not check out. */
  ghost predicate Reads(derive: KeyDerivation, passphrase: string, file: Bytes, target: Bytes, error: Option<Error>) {
    match ReadEnvelope(derive, passphrase, FirstOf(file, HEADER_SIZE))
    case Err(x) => target == [] && error == Some(x)
    case Ok(e) =>
      ReadsBlocks(e, Parts(AfterFirst(file, HEADER_SIZE), CHUNK + TAG), target, error)
  }

  lemma ReadMore(e: Envelope, blocks: seq<Bytes>, n: nat, target: Bytes)
    requires ReadSoFar(e, blocks, n, target) && n < |blocks| && OpenAt(e, blocks, n).Some?
    ensures ReadSoFar(e, blocks, n + 1, target + OpenAt(e, blocks, n).value)
  {
    JoinedMore(Plains(e, blocks, n), OpenAt(e, blocks, n).value);
  }

  lemma ReadNone(e: Envelope, blocks: seq<Bytes>)
    ensures ReadSoFar(e, blocks, 0, [])
  {
  }

  method Decrypt(source: Reader, passphrase: string, derive: KeyDerivation) returns (target: Bytes,
          error: Option<Error>)
    requires source.Valid() && source.position == 0
    modifies source`position
    ensures Reads(derive, passphrase, source.data, target, error)
  {
    assert source.data[0..] == source.data;
    var header := source.Read(HEADER_SIZE);
    var envelope := ReadEnvelope(derive, passphrase, header);
    if envelope.Err? {
      return [], Some(envelope.error);
    }
    ghost var body := source.data[source.position..];
    FirstPart(body, CHUNK + TAG);
    var block := source.Read(CHUNK + TAG);
    target, error := ReadBlocks(source, envelope.value, block, Parts(body, CHUNK + TAG));
  }

  method ReadBlocks(source: Reader, e: Envelope, first: Bytes, ghost all: seq<Bytes>) returns (target: Bytes,
          error: Option<Error>)
    requires source.Valid() && AtPart(first, source.data[source.position..], CHUNK + TAG, all, 0)
    modifies source`position
    ensures ReadsBlocks(e, all, target, error)
  {
    var counter: nat, block := 0, first;
    target := [];
    ReadNone(e, all);
    while true
      invariant source.Valid() && counter < |all|
      invariant AtPart(block, source.data[source.position..], CHUNK + TAG, all, counter)
      invariant ReadSoFar(e, all, counter, target)
      decreases |all| - counter
    {
      if |block| < TAG {
        assert StoppedAt(e, all, counter, target, CutShort);
        return target, Some(CutShort);
      }
      ghost var rest := source.data[source.position..];
      var following := source.Read(CHUNK + TAG);
      var last := following == [];
      if counter >= COUNTERS {
        assert StoppedAt(e, all, counter, target, TooLarge);
        return target, Some(TooLarge);
      }
      var plain := e.Open(counter, last, block);
      if plain.None? {
        var x := if counter == 0 then WrongPassphrase else Damaged(counter + 1);
        assert StoppedAt(e, all, counter, target, x);
        return target, Some(x);
      }
      ReadMore(e, all, counter, target);
      target := target + plain.value;
      if last {
        return target, None;
      }
      NextPart(block, rest, CHUNK + TAG, all, counter);
      counter := counter + 1;
      block := following;
    }
  }

  // ---------------------------------------------------------------------- the theorems

  lemma {:induction false} BigEndianTellsApart(m: nat, n: nat)
    requires m < COUNTERS && n < COUNTERS && BigEndian(m) == BigEndian(n)
    ensures m == n
  {
    BigEndianValue(m);
    BigEndianValue(n);
    assert BigEndian(m)[0] == BigEndian(n)[0] && BigEndian(m)[1] == BigEndian(n)[1];
    assert BigEndian(m)[2] == BigEndian(n)[2] && BigEndian(m)[3] == BigEndian(n)[3];
  }

  lemma TopTwo(n: nat)
    ensures n / 0x1_0000 == 0x100 * (n / 0x100_0000) + n / 0x1_0000 % 0x100
  {
    var high, low := n / 0x1_0000, n % 0x1_0000;
    assert n == 0x1_0000 * high + low;
    assert n == 0x100_0000 * (high / 0x100) + (0x1_0000 * (high % 0x100) + low);
  }

  lemma TopThree(n: nat)
    ensures n / 0x100 == 0x100 * (n / 0x1_0000) + n / 0x100 % 0x100
  {
    var high, low := n / 0x100, n % 0x100;
    assert n == 0x100 * high + low;
    assert n == 0x1_0000 * (high / 0x100) + (0x100 * (high % 0x100) + low);
  }

  lemma BigEndianValue(n: nat)
    requires n < COUNTERS
    ensures var b := BigEndian(n);
            n == 0x100_0000 * (b[0] as int) + 0x1_0000 * (b[1] as int) + 0x100 * (b[2] as int) + b[3] as int
  {
    TopTwo(n);
    TopThree(n);
  }

  /** No two chunks of a file share a nonce, nor does any with the mark of the last. */
  lemma {:induction false} NonceTellsApart(prefix: Bytes, m: nat, lastM: bool, n: nat, lastN: bool)
    requires m < COUNTERS && n < COUNTERS && Nonce(prefix, m, lastM) == Nonce(prefix, n, lastN)
    ensures m == n && lastM == lastN
  {
    var a, b, k := Nonce(prefix, m, lastM), Nonce(prefix, n, lastN), |prefix|;
    assert a[k..k + 4] == BigEndian(m) && b[k..k + 4] == BigEndian(n);
    BigEndianTellsApart(m, n);
    assert a[k + 4] == b[k + 4];
  }

  lemma {:induction false} HeaderReads(derive: KeyDerivation, passphrase: string, salt: Bytes, prefix: Bytes)
    requires |salt| == 16 && |prefix| == 7
    ensures var e := FileEnvelope(derive, passphrase, salt, prefix);
            |e.header| == HEADER_SIZE && ReadEnvelope(derive, passphrase, e.header) == Ok(e)
  {
    var h := Header(SCRYPT_LOG_N, SCRYPT_R, SCRYPT_P, salt, prefix);
    assert h[..8] == MAGIC && h[11..27] == salt && h[27..] == prefix;
    assert h[8] == 15 && h[9] == 8 && h[10] == 1;
  }

  lemma {:induction false} BlocksAreRegular(e: Envelope, chunks: seq<Bytes>)
    requires e.cipher.Correct() && Regular(chunks, CHUNK) && |chunks| <= COUNTERS
    ensures Regular(Blocks(e, chunks, |chunks|), CHUNK + TAG)
  {
    var blocks := Blocks(e, chunks, |chunks|);
    forall i | 0 <= i < |blocks| ensures |blocks[i]| == |chunks[i]| + TAG {
      SealedLength(e, i, i == |chunks| - 1, chunks[i]);
    }
  }

  lemma SealedLength(e: Envelope, i: nat, last: bool, chunk: Bytes)
    requires e.cipher.Correct() && i < COUNTERS
    ensures |e.Seal(i, last, chunk)| == |chunk| + TAG && e.Open(i, last, e.Seal(i, last, chunk)) == Some(chunk)
  {
    var nonce := Nonce(e.prefix, i, last);
    assert |e.cipher.Seal(nonce, chunk, e.header)| == |chunk| + TAG;
  }

  /** A file written falls apart into its header and its blocks. */
  lemma {:induction false} FileFallsApart(e: Envelope, data: Bytes)
    requires e.cipher.Correct() && |e.header| == HEADER_SIZE && |Parts(data, CHUNK)| <= COUNTERS
    ensures var chunks, file := Parts(data, CHUNK), FileOf(e, data);
            && FirstOf(file, HEADER_SIZE) == e.header
            && Parts(AfterFirst(file, HEADER_SIZE), CHUNK + TAG) == Blocks(e, chunks, |chunks|)
  {
    var chunks, file := Parts(data, CHUNK), FileOf(e, data);
    var blocks := Blocks(e, chunks, |chunks|);
    PartsAreRegular(data, CHUNK);
    BlocksAreRegular(e, chunks);
    RegularPartsComeBack(blocks, CHUNK + TAG);
    assert file == e.header + Joined(blocks);
    assert file[HEADER_SIZE..] == Joined(blocks) && file[..HEADER_SIZE] == e.header;
  }

  lemma {:induction false} BlocksOpen(e: Envelope, chunks: seq<Bytes>, i: nat)
    requires e.cipher.Correct() && |chunks| <= COUNTERS && i < |chunks|
    ensures OpenAt(e, Blocks(e, chunks, |chunks|), i) == Some(chunks[i])
  {
    SealedLength(e, i, i == |chunks| - 1, chunks[i]);
  }

  lemma {:induction false} WrittenReadsBack(e: Envelope, data: Bytes, blocks: seq<Bytes>, target: Bytes,
          error: Option<Error>)
    requires e.cipher.Correct() && |Parts(data, CHUNK)| <= COUNTERS
    requires blocks == Blocks(e, Parts(data, CHUNK), |Parts(data, CHUNK)|) && ReadsBlocks(e, blocks, target, error)
    ensures error == None && target == data
  {
    var chunks := Parts(data, CHUNK);
    forall i | 0 <= i < |chunks| ensures OpenAt(e, blocks, i) == Some(chunks[i]) {
      BlocksOpen(e, chunks, i);
    }
    assert Plains(e, blocks, |chunks|) == chunks;
    PartsAreRegular(data, CHUNK);
  }

  /** Reading a file back gives the data that was written, whatever its length:
      none at all, an exact number of chunks, or a part of one over. */
  lemma {:induction false} RoundTrip(derive: KeyDerivation, passphrase: string, salt: Bytes, prefix: Bytes,
          data: Bytes, target: Bytes, error: Option<Error>)
    requires |salt| == 16 && |prefix| == 7 && |Parts(data, CHUNK)| <= COUNTERS
    requires FileEnvelope(derive, passphrase, salt, prefix).cipher.Correct()
    requires Reads(derive, passphrase, FileOf(FileEnvelope(derive, passphrase, salt, prefix), data), target, error)
    ensures error == None && target == data
  {
    var e, chunks := FileEnvelope(derive, passphrase, salt, prefix), Parts(data, CHUNK);
    HeaderReads(derive, passphrase, salt, prefix);
    FileFallsApart(e, data);
    WrittenReadsBack(e, data, Blocks(e, chunks, |chunks|), target, error);
  }

  // ------------------------------------------------------------- what cannot be passed off

  /** One of the blocks written for these chunks, in its own place. */
  ghost predicate WasSealed(e: Envelope, chunks: seq<Bytes>, nonce: Bytes, header: Bytes, block: Bytes) {
    header == e.header && exists k: nat :: IsBlock(e, chunks, k, nonce, block)
  }

  ghost predicate IsBlock(e: Envelope, chunks: seq<Bytes>, k: nat, nonce: Bytes, block: Bytes) {
    k < |chunks| && k < COUNTERS && nonce == Nonce(e.prefix, k, k == |chunks| - 1)
    && block == e.Seal(k, k == |chunks| - 1, chunks[k])
  }

  /** The cipher is ideal: of the blocks of this file, whatever its header, those
      that open at all are ones that were sealed, under the same nonce and header. */
  ghost predicate Unforged(derive: KeyDerivation, passphrase: string, file: Bytes, e: Envelope, chunks: seq<Bytes>) {
    match ReadEnvelope(derive, passphrase, FirstOf(file, HEADER_SIZE))
    case Err(_) => true
    case Ok(claimed) => OpensOnlySealed(claimed, Parts(AfterFirst(file, HEADER_SIZE), CHUNK + TAG), e, chunks)
  }

  ghost predicate OpensOnlySealed(claimed: Envelope, blocks: seq<Bytes>, e: Envelope, chunks: seq<Bytes>) {
    forall i: nat, last: bool :: i < |blocks| && i < COUNTERS && claimed.Open(i, last, blocks[i]).Some? ==>
      WasSealed(e, chunks, Nonce(claimed.prefix, i, last), claimed.header, blocks[i])
  }

  /** A block that opens in place `i` is block `i`, and closes the file exactly if
      the one written there did. */
  lemma {:induction false} OpensInPlace(e: Envelope, blocks: seq<Bytes>, chunks: seq<Bytes>, i: nat)
    requires e.cipher.Correct() && OpensOnlySealed(e, blocks, e, chunks)
    requires i < |blocks| && OpenAt(e, blocks, i).Some?
    ensures i < |chunks| && i < COUNTERS && (i == |blocks| - 1 <==> i == |chunks| - 1)
    ensures blocks[i] == e.Seal(i, i == |chunks| - 1, chunks[i]) && OpenAt(e, blocks, i) == Some(chunks[i])
  {
    var last := i == |blocks| - 1;
    assert e.Open(i, last, blocks[i]).Some?;
    var k: nat :| IsBlock(e, chunks, k, Nonce(e.prefix, i, last), blocks[i]);
    NonceTellsApart(e.prefix, i, last, k, k == |chunks| - 1);
    SealedLength(e, i, last, chunks[i]);
  }

  lemma {:induction false} OpenedIsPrefix(e: Envelope, blocks: seq<Bytes>, chunks: seq<Bytes>, n: nat)
    requires e.cipher.Correct() && OpensOnlySealed(e, blocks, e, chunks) && n <= |blocks| && AllOpen(e, blocks, n)
    ensures n <= |chunks| && Plains(e, blocks, n) == chunks[..n]
  {
    forall i | 0 <= i < n ensures i < |chunks| && OpenAt(e, blocks, i) == Some(chunks[i]) {
      OpensInPlace(e, blocks, chunks, i);
    }
    if n > 0 {
      OpensInPlace(e, blocks, chunks, n - 1);
    }
  }

  lemma {:induction false} AcceptedBlocks(e: Envelope, blocks: seq<Bytes>, chunks: seq<Bytes>)
    requires e.cipher.Correct() && OpensOnlySealed(e, blocks, e, chunks) && blocks != [] && |chunks| <= COUNTERS
    requires AllOpen(e, blocks, |blocks|)
    ensures blocks == Blocks(e, chunks, |chunks|) && Plains(e, blocks, |blocks|) == chunks
  {
    OpensInPlace(e, blocks, chunks, |blocks| - 1);
    OpenedIsPrefix(e, blocks, chunks, |blocks|);
    forall i | 0 <= i < |blocks| ensures blocks[i] == Blocks(e, chunks, |chunks|)[i] {
      OpensInPlace(e, blocks, chunks, i);
    }
  }

  /** How many blocks were opened. */
  lemma Opened(e: Envelope, blocks: seq<Bytes>, target: Bytes, error: Option<Error>) returns (n: nat)
    requires blocks != [] && ReadsBlocks(e, blocks, target, error)
    ensures ReadSoFar(e, blocks, n, target) && (error == None ==> n == |blocks|)
    ensures n == 0 ==> target == []
  {
    if error == None {
      n := |blocks|;
    } else {
      n :| StoppedAt(e, blocks, n, target, error.value);
    }
  }

  lemma SameHeader(claimed: Envelope, blocks: seq<Bytes>, e: Envelope, chunks: seq<Bytes>)
    requires OpensOnlySealed(claimed, blocks, e, chunks) && blocks != [] && OpenAt(claimed, blocks, 0).Some?
    ensures claimed.header == e.header
  {
    assert claimed.Open(0, 0 == |blocks| - 1, blocks[0]).Some?;
  }

  lemma {:induction false} JoinedPrefix(parts: seq<Bytes>, n: nat)
    requires n <= |parts|
    ensures Joined(parts[..n]) <= Joined(parts)
    decreases |parts|
  {
    if n > 0 {
      JoinedPrefix(parts[1..], n - 1);
      assert parts[..n][1..] == parts[1..][..n - 1];
    }
  }

  /** The same, of the blocks read under the envelope they were written in. */
  lemma {:induction false} OnlyWrittenBlocks(e: Envelope, blocks: seq<Bytes>, data: Bytes, n: nat, target: Bytes)
    requires e.cipher.Correct() && blocks != [] && |Parts(data, CHUNK)| <= COUNTERS
    requires OpensOnlySealed(e, blocks, e, Parts(data, CHUNK)) && ReadSoFar(e, blocks, n, target)
    ensures target <= data
    ensures n == |blocks| ==> target == data && blocks == Blocks(e, Parts(data, CHUNK), |Parts(data, CHUNK)|)
  {
    var chunks := Parts(data, CHUNK);
    PartsAreRegular(data, CHUNK);
    OpenedIsPrefix(e, blocks, chunks, n);
    JoinedPrefix(chunks, n);
    if n == |blocks| {
      AcceptedBlocks(e, blocks, chunks);
    }
  }

  lemma Reassembled(file: Bytes, n: nat)
    ensures FirstOf(file, n) + AfterFirst(file, n) == file
  {
  }

  lemma ClaimIsTrue(derive: KeyDerivation, passphrase: string, salt: Bytes, prefix: Bytes, header: Bytes)
    requires |salt| == 16 && |prefix| == 7 && ReadEnvelope(derive, passphrase, header).Ok?
    requires ReadEnvelope(derive, passphrase, header).value.header
             == FileEnvelope(derive, passphrase, salt, prefix).header
    ensures ReadEnvelope(derive, passphrase, header).value == FileEnvelope(derive, passphrase, salt, prefix)
  {
    HeaderReads(derive, passphrase, salt, prefix);
  }

  /** A file that is accepted is the file that was written, header and all: one cut
      short, drawn out, put in another order or changed is refused. And of one that
      is refused, nothing was written out that was not the data's own beginning. */
  lemma {:induction false} OnlyWhatWasWritten(derive: KeyDerivation, passphrase: string, salt: Bytes, prefix: Bytes,
          data: Bytes, file: Bytes, target: Bytes, error: Option<Error>)
    requires |salt| == 16 && |prefix| == 7 && |Parts(data, CHUNK)| <= COUNTERS
    requires FileEnvelope(derive, passphrase, salt, prefix).cipher.Correct()
    requires Unforged(derive, passphrase, file, FileEnvelope(derive, passphrase, salt, prefix), Parts(data, CHUNK))
    requires Reads(derive, passphrase, file, target, error)
    ensures error == None ==> file == FileOf(FileEnvelope(derive, passphrase, salt, prefix), data) && target == data
    ensures target <= data
  {
    var e, chunks := FileEnvelope(derive, passphrase, salt, prefix), Parts(data, CHUNK);
    var header, body := FirstOf(file, HEADER_SIZE), AfterFirst(file, HEADER_SIZE);
    if ReadEnvelope(derive, passphrase, header).Ok? {
      var blocks := Parts(body, CHUNK + TAG);
      var claimed := ReadEnvelope(derive, passphrase, header).value;
      var n := Opened(claimed, blocks, target, error);
      if n > 0 {
        SameHeader(claimed, blocks, e, chunks);
        ClaimIsTrue(derive, passphrase, salt, prefix, header);
        OnlyWrittenBlocks(e, blocks, data, n, target);
        PartsAreRegular(body, CHUNK + TAG);
        Reassembled(file, HEADER_SIZE);
      }
    }
  }
}

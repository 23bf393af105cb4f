/** The on-disk keystore: magic, version, salt, nonce and wrapped key, read and written with system
    calls that may transfer less than they were asked to. */
module Keystore {
  import opened Octets
  import opened Wrappers

  const MAGIC: seq<byte> := ['E' as int, 'B' as int, 'K' as int, 'S' as int]
  const VERSION: byte := 1
  const SALT_BYTES := 16
  const NONCE_BYTES := 24
  const WRAPPED_BYTES := 48
  const FILE_SIZE := 4 + 1 + SALT_BYTES + NONCE_BYTES + WRAPPED_BYTES

  datatype Data = Data(salt: seq<byte>, nonce: seq<byte>, ciphertext: seq<byte>) {
    /** The sizes of the fixed arrays. */
    predicate Sized() {
      |salt| == SALT_BYTES && |nonce| == NONCE_BYTES && |ciphertext| == WRAPPED_BYTES
    }
  }

  datatype Error = ReadFailed | WrongSize | BadMagic | BadVersion

  function Encode(d: Data): seq<byte> {
    MAGIC + [VERSION] + d.salt + d.nonce + d.ciphertext
  }

  /** What a file's contents are read as. */
  function Decode(file: seq<byte>): (r: Result<Data, Error>)
    ensures r.Ok? ==> r.value.Sized()
  {
    if |file| < FILE_SIZE then Err(WrongSize)
    else if file[..4] != MAGIC then Err(BadMagic)
    else if file[4] != VERSION then Err(BadVersion)
    else Ok(Data(file[5..21], file[21..45], file[45..93]))
  }

  /** Loading what was saved gives it back, even with other bytes after it. */
  lemma DecodeUndoesEncode(d: Data, rest: seq<byte>)
    requires d.Sized()
    ensures |Encode(d)| == FILE_SIZE && Decode(Encode(d) + rest) == Ok(d)
  {
    var f := Encode(d) + rest;
    assert f[..4] == MAGIC;
    assert f[5..21] == d.salt && f[21..45] == d.nonce && f[45..93] == d.ciphertext;
  }

  /** Exactly the files of 93 bytes or more that begin with magic and version are accepted, and
      saving the result writes their first 93 bytes. */
  lemma DecodeAcceptsExactly(file: seq<byte>)
    ensures Decode(file).Ok? <==> |file| >= 93 && file[..5] == [0x45, 0x42, 0x4b, 0x53, 0x01]
    ensures Decode(file).Ok? ==>
              file[5..21] == Decode(file).value.salt && file[21..45] == Decode(file).value.nonce
              && file[45..93] == Decode(file).value.ciphertext
    ensures Decode(file).Ok? ==> Encode(Decode(file).value) == file[..FILE_SIZE]
  {
    if |file| >= FILE_SIZE {
      assert file[..5] == file[..4] + [file[4]];
      if file[..5] == MAGIC + [VERSION] { assert file[..4] == MAGIC; }
    }
  }

  /** A file opened for writing. */
  class OutFile {
    var bytes: seq<byte>

    constructor ()
      ensures bytes == []
    {
      bytes := [];
    }

    /** `write`: some positive number of bytes, or an error. */
    method Write(data: seq<byte>) returns (n: int)
      requires data != []
      modifies this
      ensures n <= |data| && n != 0
      ensures bytes == if n < 0 then old(bytes) else old(bytes) + data[..n]
    {
      n := *;
      if n <= 0 || n > |data| {
        return -1;
      }
      bytes := bytes + data[..n];
    }
  }

  /** A file opened for reading. */
  class InFile {
    const bytes: seq<byte>
    var pos: nat

    constructor (contents: seq<byte>)
      ensures bytes == contents && pos == 0
    {
      bytes := contents;
      pos := 0;
    }

    /** `read`: no bytes exactly at the end of the file, otherwise some, or an error. */
    method Read(max: nat) returns (chunk: Option<seq<byte>>)
      requires max > 0 && pos <= |bytes|
      modifies this
      ensures pos <= |bytes|
      ensures chunk.None? ==> pos == old(pos)
      ensures chunk.Some? ==>
                && |chunk.value| <= max && pos == old(pos) + |chunk.value|
                && chunk.value == bytes[old(pos)..pos]
                && (chunk.value == [] <==> old(pos) == |bytes|)
    {
      if pos == |bytes| {
        return Some([]);
      }
      var n: int := *;
      if n <= 0 || n > max || n > |bytes| - pos {
        return None;
      }
      chunk := Some(bytes[pos..pos + n]);
      pos := pos + n;
    }
  }

  /** `save`: the loop sends what is left until nothing is. */
  method Save(data: Data) returns (ok: bool, file: OutFile)
    requires data.Sized()
    ensures fresh(file)
    ensures ok ==> file.bytes == Encode(data)
    ensures !ok ==> file.bytes < Encode(data)
  {
    var buf := Encode(data);
    file := new OutFile();
    var off := 0;
    while off < |buf|
      invariant 0 <= off <= |buf| && file.bytes == buf[..off] && fresh(file)
    {
      var n := file.Write(buf[off..]);
      if n < 0 {
        return false, file;
      }
      assert buf[..off] + buf[off..][..n] == buf[..off + n];
      off := off + n;
    }
    ok := true;
  }

  /** `load`: fills a fixed buffer until it is full or the file ends, then checks and splits it. */
  method Load(file: InFile) returns (r: Result<Data, Error>)
    requires file.pos == 0
    modifies file
    ensures r == Err(ReadFailed) || r == Decode(file.bytes)
  {
    var buf := new byte[FILE_SIZE](_ => 0);
    var off := 0;
    while off < buf.Length
      invariant 0 <= off <= buf.Length && off == file.pos <= |file.bytes|
      invariant buf[..off] == file.bytes[..off]
    {
      var chunk := file.Read(buf.Length - off);
      if chunk.None? {
        return Err(ReadFailed);
      }
      var n := |chunk.value|;
      if n == 0 {
        break;
      }
      ghost var before := buf[..off];
      forall k | 0 <= k < n {
        buf[off + k] := chunk.value[k];
      }
      assert buf[..off + n] == before + chunk.value;
      off := off + n;
    }
    if off != FILE_SIZE {
      return Err(WrongSize);
    }
    assert buf[..] == file.bytes[..FILE_SIZE];
    assert file.bytes[..FILE_SIZE][..4] == file.bytes[..4];
    if buf[..4] != MAGIC {
      return Err(BadMagic);
    }
    if buf[4] != VERSION {
      return Err(BadVersion);
    }
    var p := 5;
    var salt := buf[p..p + SALT_BYTES];
    p := p + SALT_BYTES;
    var nonce := buf[p..p + NONCE_BYTES];
    p := p + NONCE_BYTES;
    var ciphertext := buf[p..p + WRAPPED_BYTES];
    r := Ok(Data(salt, nonce, ciphertext));
    assert forall i, j :: 0 <= i <= j <= FILE_SIZE ==> buf[i..j] == buf[..][i..j];
    assert forall i, j :: 0 <= i <= j <= FILE_SIZE ==> file.bytes[..FILE_SIZE][i..j] == file.bytes[i..j];
  }

  /** A keystore that was saved without an error loads, unless reading fails. */
  method SaveThenLoad(data: Data) returns (r: Option<Result<Data, Error>>)
    requires data.Sized()
    ensures r.Some? ==> r.value == Ok(data) || r.value == Err(ReadFailed)
  {
    var ok, out := Save(data);
    if !ok {
      return None;
    }
    var file := new InFile(out.bytes);
    var loaded := Load(file);
    DecodeUndoesEncode(data, []);
    assert Encode(data) + [] == Encode(data);
    r := Some(loaded);
  }
}

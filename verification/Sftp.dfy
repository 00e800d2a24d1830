/** File transfer over SFTP (lib/ltf/ssh/sftp.lua on src/modules/ssh/ltf-ssh-sftp.c): chunks that the
    server may take or give a part at a time.  A file's bytes are the characters of a string. */
module Sftp {
  import opened Options
  import opened Seqs
  import opened Text

  /** A local path: what lstat sees there.  A link leads on. */
  datatype Local = Missing | Directory | File(bytes: string) | Link(to: Local)

  datatype Error =
    | NoSuchFile | IsDirectory | EmptyFile | CannotOpen
    | AlreadyExists | UnknownMode
    | HandleInUse | NoSuchRemote | ServerFailed | NulInPiece

  datatype Result<T> = Ok(value: T) | Err(error: Error)

  datatype Handle = Handle(path: string, at: nat)

  const DEFAULT_CHUNK := 1024
  const DEFAULT_READ := 4096
  const MAX_READ := 64 * 1024 * 1024

  // LIBSSH2_FXF_READ, WRITE | CREAT and WRITE | CREAT | TRUNC
  const FOR_READING := 1
  const FOR_CREATING := 10
  const FOR_OVERWRITING := 26

  predicate Creates(flags: nat) {
    flags / 8 % 2 == 1
  }

  predicate Truncates(flags: nat) {
    flags / 16 % 2 == 1
  }

  // ----- what is sent -----

  function Final(l: Local): (end: Local)
    ensures !end.Link?
  {
    if l.Link? then Final(l.to) else l
  }

  /** What send looks at: a link that leads somewhere is followed if it is to be resolved. */
  function Seen(l: Local, resolve: bool): Local {
    if l.Link? && resolve && !Final(l).Missing? then Final(l) else l
  }

  /** What opening and reading a path gives.  A directory can be opened, and nothing be read. */
  function Opened(l: Local): Result<string> {
    match Final(l)
    case Missing => Err(CannotOpen)
    case Directory => Ok("")
    case File(bytes) => Ok(bytes)
  }

  /** The bytes to send, or the error before anything is sent. */
  function SentAs(l: Local, resolve: bool): Result<string> {
    match Seen(l, resolve)
    case Missing => Err(NoSuchFile)
    case Directory => Err(IsDirectory)
    case File(bytes) => if bytes == "" then Err(EmptyFile) else Ok(bytes)
    case Link(_) => Opened(l)
  }

  /** Lua's `a or b` on an optional boolean. */
  function LuaOr(a: Option<bool>, b: bool): bool {
    if a == Some(true) then true else b
  }

  /** What the option asks for; the default is to resolve. */
  function Asked(resolveSymlinks: Option<bool>): bool {
    resolveSymlinks.None? || resolveSymlinks.value
  }

  /** The option is written `resolve_symlinks or true`, so every value gives the same.  It is honoured
      exactly when it is not false or the path is no link, and that shows in what is sent, or in the
      error, exactly when a link leads to a directory or to an empty file. */
  lemma ResolveIsIgnored(l: Local, resolveSymlinks: Option<bool>)
    ensures SentAs(l, LuaOr(resolveSymlinks, true)) == Outgoing(l)
    ensures Seen(l, LuaOr(resolveSymlinks, true)) == Seen(l, Asked(resolveSymlinks))
       <==> resolveSymlinks != Some(false) || !l.Link? || Final(l).Missing?
    ensures SentAs(l, LuaOr(resolveSymlinks, true)) == SentAs(l, Asked(resolveSymlinks))
       <==> !(resolveSymlinks == Some(false) && l.Link? && (Final(l).Directory? || Final(l) == File("")))
  {
  }

  /** A link to a directory: with false it would be sent as an empty file; it is an error instead. */
  lemma FalseIsIgnored()
    ensures var link := Link(Directory);
      SentAs(link, LuaOr(Some(false), true)) == Err(IsDirectory) && SentAs(link, Asked(Some(false))) == Ok("")
    ensures Seen(Link(File("a")), LuaOr(Some(false), true)) == File("a") != Seen(Link(File("a")), Asked(Some(false)))
  {
  }

  /** The bytes to send, or the error, as it always is: a link is followed, and a dangling one cannot be
      opened. */
  function Outgoing(l: Local): Result<string> {
    match Final(l)
    case Missing => Err(if l.Link? then CannotOpen else NoSuchFile)
    case Directory => Err(IsDirectory)
    case File(bytes) => if bytes == "" then Err(EmptyFile) else Ok(bytes)
  }

  /** Why send gives up before it opens the remote file, if it does. */
  function Refusal(l: Local, taken: bool, mode: string, handle: Option<Handle>): Option<Error> {
    if Outgoing(l).Err? then Some(Outgoing(l).error)
    else if mode == "create" && taken then Some(AlreadyExists)
    else if mode != "create" && mode != "overwrite" then Some(UnknownMode)
    else if handle.Some? then Some(HandleInUse)
    else None
  }

  /** What is sent for a path, or why nothing is: a link is as good as what it leads to, except that a dangling
      one is found out when it is opened. */
  lemma OutgoingIs(bytes: string, to: Local)
    ensures Outgoing(File(bytes)) == if bytes == "" then Err(EmptyFile) else Ok(bytes)
    ensures Outgoing(Directory) == Err(IsDirectory) && Outgoing(Missing) == Err(NoSuchFile)
    ensures Outgoing(Link(to)) == if Outgoing(to) == Err(NoSuchFile) then Err(CannotOpen) else Outgoing(to)
  {
  }

  /** The file itself is what is sent and nothing else is refused, unless the remote file is there and has not
      been asked to be overwritten, which is what "create" and no mode at all mean. */
  lemma RefusalIs(bytes: string, taken: bool, mode: Option<string>, handle: Option<Handle>)
    requires bytes != ""
    ensures Refusal(File(bytes), taken, ModeOf(mode), handle)
         == if (mode == None || mode == Some("create")) && taken then Some(AlreadyExists)
            else if mode != None && mode != Some("create") && mode != Some("overwrite") then Some(UnknownMode)
            else if handle.Some? then Some(HandleInUse)
            else None
    ensures Refusal(Directory, taken, ModeOf(mode), handle) == Some(IsDirectory)
    ensures Refusal(Missing, taken, ModeOf(mode), handle) == Some(NoSuchFile)
    ensures Refusal(File(""), taken, ModeOf(mode), handle) == Some(EmptyFile)
  {
  }

  /** The bytes are read in chunks, and a chunk with a NUL in it is refused as a whole: what arrives
      are the chunks before it. */
  function Arriving(bytes: string, chunk: nat): string
    requires chunk > 0
    decreases |bytes|
  {
    if bytes == "" then ""
    else
      var n := if chunk <= |bytes| then chunk else |bytes|;
      if '\0' in bytes[..n] then "" else bytes[..n] + Arriving(bytes[n..], chunk)
  }

  /** Where the chunk that holds position z starts. */
  function ChunkStart(z: nat, chunk: nat): (start: nat)
    requires chunk > 0
    ensures start <= z < start + chunk
  {
    if z < chunk then 0 else chunk + ChunkStart(z - chunk, chunk)
  }

  lemma {:induction false} WholeChunksBefore(z: nat, chunk: nat) returns (k: nat)
    requires chunk > 0
    ensures ChunkStart(z, chunk) == k * chunk
  {
    if z < chunk {
      k := 0;
    } else {
      k := WholeChunksBefore(z - chunk, chunk);
      assert chunk + k * chunk == (k + 1) * chunk;
      k := k + 1;
    }
  }

  lemma {:induction false} NulIn(bytes: string, n: nat)
    requires n <= |bytes|
    ensures '\0' in bytes[..n] <==> Span(bytes, '\0') < n
    ensures Span(bytes, '\0') >= n ==> Span(bytes[n..], '\0') == Span(bytes, '\0') - n
  {
    if n == 0 {
      assert bytes[0..] == bytes;
    } else {
      var rest := bytes[1..];
      NulIn(rest, n - 1);
      assert rest[n - 1..] == bytes[n..];
      assert bytes[..n] == [bytes[0]] + rest[..n - 1];
    }
  }

  lemma ArrivingFirst(bytes: string, chunk: nat, n: nat)
    requires chunk > 0 && bytes != "" && n == if chunk <= |bytes| then chunk else |bytes|
    ensures Arriving(bytes, chunk) == if '\0' in bytes[..n] then "" else bytes[..n] + Arriving(bytes[n..], chunk)
  {
  }

  lemma {:induction false} ArrivingCut(bytes: string, chunk: nat)
    requires chunk > 0
    ensures var z := Span(bytes, '\0');
      Arriving(bytes, chunk) == if z < |bytes| then bytes[..ChunkStart(z, chunk)] else bytes
    decreases |bytes|
  {
    if bytes != "" {
      var n := if chunk <= |bytes| then chunk else |bytes|;
      ArrivingFirst(bytes, chunk, n);
      hide Arriving, Span;
      var z, rest := Span(bytes, '\0'), bytes[n..];
      NulIn(bytes, n);
      if z >= n {
        ArrivingCut(rest, chunk);
        SliceJoin(bytes, n, if z < |bytes| then ChunkStart(z - n, chunk) else |rest|);
      }
    }
  }

  /** Everything arrives exactly when there is no NUL; otherwise the file is cut at the start of the
      chunk that holds the first one. */
  lemma ArrivingIs(bytes: string, chunk: nat)
    requires chunk > 0
    ensures var z := Span(bytes, '\0');
      Arriving(bytes, chunk) == if z < |bytes| then bytes[..ChunkStart(z, chunk)] else bytes
    ensures Arriving(bytes, chunk) == bytes <==> '\0' !in bytes
  {
    ArrivingCut(bytes, chunk);
    NulIn(bytes, |bytes|);
    assert bytes[..|bytes|] == bytes;
  }

  lemma SliceJoin(s: string, n: nat, m: nat)
    requires n + m <= |s|
    ensures s[..n] + s[n..][..m] == s[..n + m]
    ensures n + m == |s| ==> s[..n] + s[n..] == s
  {
  }

  /** One more chunk is read. */
  lemma {:induction false} ArrivingStep(bytes: string, chunk: nat, at: nat, n: nat)
    requires chunk > 0 && at < |bytes| && n == if chunk <= |bytes| - at then chunk else |bytes| - at
    requires Arriving(bytes, chunk) == bytes[..at] + Arriving(bytes[at..], chunk)
    ensures '\0' in bytes[at..at + n] ==> Arriving(bytes, chunk) == bytes[..at]
    ensures '\0' !in bytes[at..at + n] ==>
      Arriving(bytes, chunk) == bytes[..at + n] + Arriving(bytes[at + n..], chunk)
  {
    hide Arriving;
    var rest, piece, after := bytes[at..], bytes[at..at + n], bytes[at + n..];
    assert rest[..n] == piece && rest[n..] == after;
    ArrivingFirst(rest, chunk, n);
    if '\0' in piece {
      assert bytes[..at] + "" == bytes[..at];
    } else {
      Associative(bytes[..at], piece, Arriving(after, chunk));
      assert bytes[..at + n] == bytes[..at] + piece;
    }
  }

  // ----- the channel -----

  /** Bytes written over a file from a position on. */
  function Overwritten(bytes: string, at: nat, piece: string): string
    requires at <= |bytes|
  {
    bytes[..at] + piece + if at + |piece| < |bytes| then bytes[at + |piece|..] else ""
  }

  /** An SFTP session and the server's files.  A reliable server fails no request by itself; how much
      of a piece it takes, and how much it gives, is up to it. */
  class Channel {
    const reliable: bool
    var files: map<string, string>
    var handle: Option<Handle>

    ghost predicate Valid()
      reads this
    {
      handle.Some? ==> handle.value.path in files && handle.value.at <= |files[handle.value.path]|
    }

    constructor (remote: map<string, string>, trusted: bool)
      ensures Valid() && files == remote && handle == None && reliable == trusted
    {
      files, handle, reliable := remote, None, trusted;
    }

    method Open(path: string, flags: nat) returns (error: Option<Error>)
      requires Valid()
      modifies this
      ensures Valid()
      ensures error.Some? ==> files == old(files) && handle == old(handle)
      ensures old(handle).Some? <==> error == Some(HandleInUse)
      ensures old(handle).None? && path !in old(files) && !Creates(flags) ==>
        error == Some(NoSuchRemote) || error == Some(ServerFailed)
      ensures error == Some(NoSuchRemote) ==> path !in old(files) && !Creates(flags)
      ensures error == Some(ServerFailed) ==> !reliable
      ensures error.Some? ==> error.value in {HandleInUse, NoSuchRemote, ServerFailed}
      ensures error.None? ==>
        && handle == Some(Handle(path, 0))
        && files == old(files)[path := if path in old(files) && !Truncates(flags) then old(files)[path] else ""]
    {
      if handle.Some? {
        return Some(HandleInUse);
      }
      var fails: bool := *;
      if fails && !reliable {
        return Some(ServerFailed);
      }
      if path !in files && !Creates(flags) {
        return Some(NoSuchRemote);
      }
      files := files[path := if path in files && !Truncates(flags) then files[path] else ""];
      handle := Some(Handle(path, 0));
      error := None;
    }

    /** Takes at least one byte of the piece.  A piece in which strlen stops early is an error that
        leaves the handle open; an error of the server closes it. */
    method Write(piece: string, size: nat) returns (r: Result<nat>)
      requires Valid() && handle.Some? && 0 < size == |piece|
      modifies this
      ensures Valid()
      ensures r == Err(NulInPiece) <==> '\0' in piece
      ensures r == Err(NulInPiece) ==> files == old(files) && handle == old(handle)
      ensures r.Err? && r.error != NulInPiece ==>
        !reliable && r.error == ServerFailed && handle == None && files == old(files)
      ensures r.Ok? ==>
        && 0 < r.value <= size
        && handle == Some(old(handle).value.(at := old(handle).value.at + r.value))
        && var path := old(handle).value.path;
           files == old(files)[path := Overwritten(old(files)[path], old(handle).value.at, piece[..r.value])]
    {
      NulIn(piece, size);
      assert piece[..size] == piece;
      if Span(piece, '\0') < size {
        return Err(NulInPiece);
      }
      var fails: bool := *;
      if fails && !reliable {
        handle := None;
        return Err(ServerFailed);
      }
      var written: nat :| 1 <= written <= size;
      var Handle(path, at) := handle.value;
      files := files[path := Overwritten(files[path], at, piece[..written])];
      handle := Some(Handle(path, at + written));
      r := Ok(written);
    }

    /** Gives at least one byte unless the end is reached. */
    method Read(size: nat) returns (r: Result<string>)
      requires Valid() && handle.Some?
      modifies this`handle
      ensures Valid()
      ensures r.Err? ==> !reliable && r.error == ServerFailed && handle == old(handle)
      ensures r.Ok? ==> var Handle(path, at) := old(handle).value;
        && at + |r.value| <= |files[path]|
        && r.value == files[path][at..at + |r.value|]
        && (r.value == "" <==> at == |files[path]|)
        && handle == Some(Handle(path, at + |r.value|))
    {
      var len := if size == 0 then DEFAULT_READ else if size > MAX_READ then MAX_READ else size;
      var fails: bool := *;
      if fails && !reliable {
        return Err(ServerFailed);
      }
      var Handle(path, at) := handle.value;
      var rest := |files[path]| - at;
      if rest == 0 {
        return Ok("");
      }
      var given: nat :| 1 <= given <= len && given <= rest;
      handle := Some(Handle(path, at + given));
      r := Ok(files[path][at..at + given]);
    }

    method Close()
      modifies this`handle
      ensures handle == None
    {
      handle := None;
    }
  }

  // ----- send -----

  /** The remote file holds what has been sent, and the handle is at its end. */
  ghost predicate Sent(c: Channel, before: map<string, string>, remote: string, bytes: string)
    reads c
  {
    c.files == before[remote := bytes] && c.handle == Some(Handle(remote, |bytes|))
  }

  /** The remote file holds the beginning of the bytes, and no other file has been touched. */
  ghost predicate Partial(c: Channel, before: map<string, string>, remote: string, bytes: string)
    reads c
  {
    remote in c.files && c.files[remote] <= bytes && c.files == before[remote := c.files[remote]]
  }

  /** How a transfer can stop in the middle: at a NUL with the handle left open, or at an error of
      the server. */
  ghost predicate Stopped(c: Channel, before: map<string, string>, remote: string, bytes: string, error: Error)
    reads c
  {
    && Partial(c, before, remote, bytes)
    && ((error == NulInPiece && c.handle.Some?) || (error == ServerFailed && !c.reliable))
  }

  lemma StillPartial(c: Channel, before: map<string, string>, remote: string, bytes: string, more: string, error: Error)
    requires Stopped(c, before, remote, bytes, error) && bytes <= more
    ensures Stopped(c, before, remote, more, error)
  {
  }

  method SendPiece(c: Channel, piece: string, ghost before: map<string, string>, ghost remote: string,
                   ghost sofar: string)
    returns (r: Result<nat>)
    requires c.Valid() && Sent(c, before, remote, sofar) && piece != ""
    modifies c
    ensures c.Valid()
    ensures r.Ok? ==> '\0' !in piece && 0 < r.value <= |piece| && Sent(c, before, remote, sofar + piece[..r.value])
    ensures r == Err(NulInPiece) ==> '\0' in piece && Sent(c, before, remote, sofar)
    ensures r.Err? ==> Stopped(c, before, remote, sofar, r.error)
  {
    r := c.Write(piece, |piece|);
    if r.Ok? {
      assert Overwritten(sofar, |sofar|, piece[..r.value]) == sofar + piece[..r.value];
    }
  }

  /** The write loop for one chunk: what the server has not taken is offered again. */
  method SendChunk(c: Channel, chunk: string, ghost before: map<string, string>, ghost remote: string,
                   ghost sofar: string)
    returns (r: Result<nat>)
    requires c.Valid() && Sent(c, before, remote, sofar) && chunk != ""
    modifies c
    ensures c.Valid()
    ensures r.Ok? ==> '\0' !in chunk && r.value == |chunk| && Sent(c, before, remote, sofar + chunk)
    ensures r == Err(NulInPiece) ==> '\0' in chunk && Sent(c, before, remote, sofar)
    ensures r.Err? ==> Stopped(c, before, remote, sofar + chunk, r.error)
  {
    hide Sent, Stopped;
    var offset: nat, remaining: nat, sent: nat := 0, |chunk|, 0;
    assert sofar + chunk[..0] == sofar;
    while remaining > 0
      invariant c.Valid() && offset + remaining == |chunk| && sent == offset
      invariant Sent(c, before, remote, sofar + chunk[..offset])
      invariant offset > 0 ==> '\0' !in chunk
    {
      var piece := chunk[offset..offset + remaining];
      assert piece == chunk[offset..];
      assert offset == 0 ==> piece == chunk;
      NotInRest(chunk, offset);
      var w := SendPiece(c, piece, before, remote, sofar + chunk[..offset]);
      if w.Err? {
        PieceAdded(sofar, chunk, offset, remaining);
        StillPartial(c, before, remote, sofar + chunk[..offset], sofar + chunk, w.error);
        return w;
      }
      PieceAdded(sofar, chunk, offset, w.value);
      offset := offset + w.value;
      remaining := remaining - w.value;
      sent := sent + w.value;
    }
    assert chunk[..offset] == chunk;
    r := Ok(sent);
  }

  lemma PieceAdded(sofar: string, chunk: string, i: nat, n: nat)
    requires i + n <= |chunk|
    ensures sofar + chunk[..i] + chunk[i..][..n] == sofar + chunk[..i + n]
  {
  }

  lemma NotInRest(s: string, i: nat)
    requires i <= |s|
    ensures '\0' !in s ==> '\0' !in s[i..]
  {
  }

  /** Reads the local file chunk by chunk and sends each.  When it ends well the remote file is the
      local one, byte for byte, and as many bytes were counted; a NUL stops it at the chunk it is
      in. */
  method SendAll(c: Channel, bytes: string, chunkSize: nat, ghost before: map<string, string>, ghost remote: string)
    returns (r: Result<nat>)
    requires c.Valid() && Sent(c, before, remote, "") && chunkSize > 0
    modifies c
    ensures c.Valid()
    ensures r.Ok? ==> '\0' !in bytes && r.value == |bytes| && Sent(c, before, remote, bytes)
    ensures r == Err(NulInPiece) ==> '\0' in bytes && Sent(c, before, remote, Arriving(bytes, chunkSize))
    ensures r.Err? ==> Stopped(c, before, remote, bytes, r.error)
  {
    hide Arriving, Sent, Stopped;
    var at, total := 0, 0;
    assert bytes[..0] == "" && bytes[0..] == bytes;
    assert "" + Arriving(bytes, chunkSize) == Arriving(bytes, chunkSize);
    while at < |bytes|
      invariant at <= |bytes| && total == at && c.Valid()
      invariant '\0' !in bytes[..at]
      invariant Sent(c, before, remote, bytes[..at])
      invariant Arriving(bytes, chunkSize) == bytes[..at] + Arriving(bytes[at..], chunkSize)
    {
      var n := if chunkSize <= |bytes| - at then chunkSize else |bytes| - at;
      ArrivingStep(bytes, chunkSize, at, n);
      var s := SendChunk(c, bytes[at..at + n], before, remote, bytes[..at]);
      assert bytes[..at + n] == bytes[..at] + bytes[at..at + n];
      if s.Err? {
        StillPartial(c, before, remote, bytes[..at + n], bytes, s.error);
        return s;
      }
      total := total + s.value;
      at := at + n;
    }
    assert bytes[..at] == bytes;
    r := Ok(total);
  }

  /** The checks on the local file, and its bytes. */
  method ReadLocal(local: Local, resolveSymlinks: Option<bool>) returns (out: Result<string>)
    ensures out == SentAs(local, LuaOr(resolveSymlinks, true))
  {
    var resolve := LuaOr(resolveSymlinks, true);
    if local.Missing? {
      return Err(NoSuchFile);
    }
    var seen := local;
    if local.Link? && resolve {
      var end := Final(local);
      if !end.Missing? {
        seen := end;
      }
    }
    if seen.Directory? {
      return Err(IsDirectory);
    }
    if seen.File? && |seen.bytes| == 0 {
      return Err(EmptyFile);
    }
    out := Opened(seen);
  }

  method Send(c: Channel, local: Local, remote: string, mode: Option<string>, chunkSize: Option<nat>,
              resolveSymlinks: Option<bool>)
    returns (r: Result<nat>)
    requires c.Valid() && chunkSize != Some(0)
    modifies c
    ensures c.Valid()
    ensures var refusal := Refusal(local, remote in old(c.files), ModeOf(mode), old(c.handle));
      refusal.Some? ==> r == Err(refusal.value) && c.files == old(c.files) && c.handle == old(c.handle)
    ensures r.Ok? ==>
      && Outgoing(local).Ok?
      && '\0' !in Outgoing(local).value
      && c.files == old(c.files)[remote := Outgoing(local).value]
      && r.value == |Outgoing(local).value|
      && c.handle == None
    ensures r == Err(NulInPiece) ==>
      && Outgoing(local).Ok?
      && '\0' in Outgoing(local).value
      && c.files == old(c.files)[remote := Arriving(Outgoing(local).value, ChunkOf(chunkSize))]
      && c.handle.Some?
    ensures c.files == old(c.files) ||
      (Outgoing(local).Ok? && Partial(c, old(c.files), remote, Outgoing(local).value))
    ensures Refusal(local, remote in old(c.files), ModeOf(mode), old(c.handle)).None? && c.reliable ==>
      r.Ok? || r == Err(NulInPiece)
  {
    var out := ReadLocal(local, resolveSymlinks);
    ResolveIsIgnored(local, resolveSymlinks);
    if out.Err? {
      return Err(out.error);
    }
    var flags := 0;
    if ModeOf(mode) == "create" {
      flags := FOR_CREATING;
      if remote in c.files {
        return Err(AlreadyExists);
      }
    } else if ModeOf(mode) == "overwrite" {
      flags := FOR_OVERWRITING;
    } else {
      return Err(UnknownMode);
    }
    var error := c.Open(remote, flags);
    if error.Some? {
      return Err(error.value);
    }
    r := SendAll(c, out.value, ChunkOf(chunkSize), old(c.files), remote);
    if r.Ok? {
      c.Close();
    }
  }

  function ModeOf(mode: Option<string>): string {
    if mode.Some? then mode.value else "create"
  }

  function ChunkOf(chunkSize: Option<nat>): nat {
    if chunkSize.Some? then chunkSize.value else DEFAULT_CHUNK
  }

  /** Without a chunk size the file goes out in pieces of 1024 bytes. */
  lemma DefaultChunk(bytes: string)
    requires |bytes| == 1024 && '\0' !in bytes
    ensures Arriving(bytes + "\0", ChunkOf(None)) == bytes && Arriving(bytes[1..] + "\0", ChunkOf(None)) == ""
  {
    SpanIs(bytes + "\0", '\0', 1024);
    SpanIs(bytes[1..] + "\0", '\0', 1023);
    ArrivingIs(bytes + "\0", 1024);
    ArrivingIs(bytes[1..] + "\0", 1024);
  }

  // ----- receive -----

  /** The local file is opened, and emptied, before the remote one; nothing happens when it cannot be. */
  method Receive(c: Channel, before: Local, writable: bool, remote: string, chunkSize: Option<nat>)
    returns (r: Result<nat>, local: Local)
    requires c.Valid()
    modifies c
    ensures c.Valid() && c.files == old(c.files)
    ensures !writable ==> r == Err(CannotOpen) && local == before && c.handle == old(c.handle)
    ensures writable ==> local.File?
    ensures r.Ok? ==>
      && remote in c.files
      && local == File(c.files[remote])
      && r.value == |c.files[remote]|
      && c.handle == None
    ensures writable && remote in c.files && r.Err? ==> local.bytes <= c.files[remote]
    ensures c.reliable ==> (r.Ok? <==> writable && old(c.handle).None? && remote in c.files)
    ensures writable && old(c.handle).Some? ==> r == Err(HandleInUse) && c.handle == old(c.handle) && local == File("")
    ensures c.reliable && writable && old(c.handle).None? && remote !in c.files ==> r == Err(NoSuchRemote)
  {
    if !writable {
      return Err(CannotOpen), before;
    }
    local := File("");
    var error := c.Open(remote, FOR_READING);
    if error.Some? {
      return Err(error.value), local;
    }
    ghost var bytes := c.files[remote];
    var total := 0;
    while true
      invariant c.Valid() && c.files == old(c.files) && total <= |bytes|
      invariant local == File(bytes[..total]) && c.handle == Some(Handle(remote, total))
      decreases |bytes| - total
    {
      var chunk := c.Read(ChunkOf(chunkSize));
      if chunk.Err? {
        return Err(chunk.error), local;
      }
      if |chunk.value| == 0 {
        break;
      }
      assert bytes[..total] + chunk.value == bytes[..total + |chunk.value|];
      local := File(local.bytes + chunk.value);
      total := total + |chunk.value|;
    }
    assert bytes[..total] == bytes;
    c.Close();
    r := Ok(total);
  }

  /** A file that was sent comes back as it was, however both transfers are cut into pieces. */
  method SendAndReceive(c: Channel, local: Local, remote: string, mode: Option<string>, resolveSymlinks: Option<bool>,
                        sendChunk: Option<nat>, receiveChunk: Option<nat>, before: Local, writable: bool)
    returns (sent: Result<nat>, received: Result<nat>, copy: Local)
    requires c.Valid() && sendChunk != Some(0)
    modifies c
    ensures sent.Ok? && received.Ok? ==> copy == Final(local)
    ensures sent.Ok? && c.reliable && writable ==> received == sent
  {
    sent := Send(c, local, remote, mode, sendChunk, resolveSymlinks);
    assert Outgoing(local).Ok? ==> Final(local) == File(Outgoing(local).value);
    received, copy := Receive(c, before, writable, remote, receiveChunk);
  }

  // ----- a file that does not arrive -----

  /** Three bytes with a NUL between them: sent byte by byte the first arrives, sent as one chunk
      nothing does. */
  lemma NulStopsSending()
    ensures Arriving("a\0b", 1) == "a" && Arriving("a\0b", DEFAULT_CHUNK) == ""
  {
    assert "a\0b"[..1] == "a" && "a\0b"[1..] == "\0b";
    assert "\0b"[..1][0] == '\0';
    assert Arriving("\0b", 1) == "";
    assert "a\0b"[..3][1] == '\0';
  }

  /** So a new file of those bytes stays empty on a reliable server, and the handle stays open: the next
      transfer is refused. */
  method SendNul(c: Channel, remote: string) returns (first: Result<nat>, second: Result<nat>)
    requires c.Valid() && c.reliable && c.handle == None && remote !in c.files
    modifies c
    ensures first == Err(NulInPiece) && second == Err(HandleInUse)
    ensures c.files == old(c.files)[remote := ""]
  {
    NulStopsSending();
    assert "a\0b"[1] == '\0' && '\0' !in "a";
    first := Send(c, File("a\0b"), remote, None, None, None);
    second := Send(c, File("a"), remote, Some("overwrite"), None, None);
  }
}

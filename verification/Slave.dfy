/**
 A slave's code for one request, on its disk and its two socket directions:
 it sends and stores what `Session` says.
 */
module Slave {
  import opened Bytes
  import opened Text
  import opened Wire
  import opened Rio
  import opened Transfer
  import opened Paths
  import opened FileSystem
  import opened Session

  /** The path a request reads or removes does not lead above the root. */
  predicate RequestInside(kind: u32, path: bytes) {
    && (kind == GET || kind == RM ==> StaysInside(path))
    && (kind == RESUME && ParseResumeData(path).Some? ==> StaysInside(ParseResumeData(path).value.0))
    && (kind == UPDATE && ParseUpdate(path).Some? ==> StaysInside(ParseUpdate(path).value.1))
  }

  class Worker {
    const e: Env
    const disk: Disk

    ghost predicate Valid()
      reads this, disk
    {
      && Canonical(disk.root) && e.rootPath == Join(disk.root)
      && IsCString(e.rootPath) && |e.rootPath| < MAXLINE
      && WellFormed(disk.store)
    }

    constructor (e: Env, disk: Disk)
      requires Canonical(disk.root) && e.rootPath == Join(disk.root)
      requires IsCString(e.rootPath) && |e.rootPath| < MAXLINE && WellFormed(disk.store)
      ensures Valid() && this.e == e && this.disk == disk
    {
      this.e, this.disk := e, disk;
    }

    /** `read_request` and `decode_request`, with a reader of its own that is
        then thrown away: what it has read too far is lost. */
    method ReadRequest(conn: Source) returns (failed: bool, kind: u32, path: bytes, ghost lost: bytes)
      requires conn.Healthy()
      modifies conn
      ensures conn.Healthy()
      ensures failed <==> |old(conn.unread)| < REQUEST_BYTES
      ensures !failed ==>
                && old(conn.unread) == old(conn.unread)[..REQUEST_BYTES] + lost + conn.unread
                && |lost| <= RIO_BUFSIZE
                && (kind, path) == RequestIn(e, old(conn.unread))
    {
      hide DecodeRequest, RequestFromImage;
      var rio := new Reader(conn);
      var n, data := rio.ReadNb(REQUEST_BYTES);
      lost := rio.Buffered();
      kind, path := 0, [];
      failed := n != REQUEST_BYTES;
      if !failed {
        Assoc(data, lost, conn.unread);
        assert data == old(conn.unread)[..REQUEST_BYTES];
        var request := new RequestStruct();
        request.Load(e.o, data);
        kind, path := request.Decode(e.o);
      }
    }

    /** `write_response` for a text and an error code. */
    method Answer(sock: Sink, text: bytes, error: byte)
      requires Broken !in sock.plan
      modifies sock
      ensures Broken !in sock.plan && sock.sent == old(sock.sent) + Session.Reply(e, text, error)
    {
      hide Wrote;
      var r := SocketWriteAll(sock, Session.Reply(e, text, error));
      AllWritten(old(sock.sent), sock.sent, Session.Reply(e, text, error));
    }

    /** `receive_file_by_blocks_to_path` with `require_existing` 0. */
    method ReceiveToPath(conn: Source, path: bytes) returns (code: int)
      requires Valid() && IsCString(path) && conn.Healthy()
      modifies disk, conn
      ensures Valid()
      ensures var up := ReceiveUpload(e, old(disk.store), path, old(conn.unread));
              code == up.code && disk.store == up.store
    {
      hide HeaderFromImage, Receive, WriteKey, CanOpen, Components, Join, WellFormed, Above;
      ghost var stream := conn.unread;
      var rio := new Reader(conn);
      var exited, header := ReceiveTransferHeader(e.o, rio);
      if header.None? {
        return CLIENT_DISCONNECTED_R;
      }
      if header.value.error != NO_ERROR_R {
        return header.value.error;
      }
      var writable, key := disk.OpenFileW(e.dir, path);
      if !writable {
        return PATH_ERROR_R;
      }
      KeyIs(e, path);
      var fd := new Sink([]);
      ghost var r := Receive(e.o, rio.Remaining(), header.value.total, 0);
      code := ReceiveFileByBlocksToFd(e.o, rio, fd, header.value.total, 0);
      assert fd.sent == r.data by { AllWritten([], fd.sent, r.data); assert [] + r.data == r.data; }
      disk.Fill(key, fd.sent);
      StoredIs(old(disk.store), key, fd.sent);
    }

    /** The GET, RESUME, BYE, RM, PUT and UPDATE cases of
        `send_server_response`, when the client stays connected and takes what
        it is sent: the first reply, and for an upload the transfer and the
        second one. */
    method SendServerResponse(conn: Source, sock: Sink, kind: u32, path: bytes, readPlan: seq<CallEvent>)
      returns (code: int)
      requires Valid() && IsCString(path) && kind != LS
      requires RequestInside(kind, path)
      requires conn.Healthy() && Broken !in sock.plan && Broken !in readPlan
      modifies disk, conn, sock
      ensures Valid()
      ensures var (srv, first) := ServeRequest(e, Server(old(disk.store), [], [], Serving), kind, path);
              if !srv.stage.Awaiting? then
                sock.sent == old(sock.sent) + first && disk.store == srv.store && conn.unread == old(conn.unread)
              else
                var up := ReceiveUpload(e, srv.store, srv.stage.path, old(conn.unread));
                && disk.store == up.store && code == up.code
                && sock.sent == old(sock.sent) + first + Outcome(srv.stage.update, up.code)
      ensures kind == RM ==>
                && code == NO_ERROR_R
                && sock.sent == old(sock.sent) + Session.Reply(e,
                     if ReadFile(old(disk.store), e.dir, path).Some?
                     then Ascii("File ") + path + Ascii(" removed successfully\n")
                     else Ascii("Error: Could not remove file ") + path + Ascii("\n"), 0)
      ensures kind == UPDATE && ParseUpdate(path).Some? && ParseUpdate(path).value.0 == RM ==>
                var was := ReadFile(old(disk.store), e.dir, ParseUpdate(path).value.1).Some?;
                && code == (if was then NO_ERROR_R else PATH_ERROR_R)
                && sock.sent == old(sock.sent) + if was then Session.Reply(e, Ascii("UPDATE RM OK\n"), 0)
                                                 else Session.Reply(e, Ascii("UPDATE RM ERROR\n"), 1)
      ensures kind == BYE ==> sock.sent == old(sock.sent) + Session.Reply(e, Ascii("BYE\n"), 0)
    {
      hide Served, Session.Reply, ReceiveUpload, ReadKey, PutText, Ascii, RemovalText, WellFormed, Join, Canonical;
      var store := disk.store;
      if kind == GET {
        code := SendFileByBlocksFromOffset(e.o, sock, ReadFile(store, e.dir, path), 0, readPlan);
        AllWritten(old(sock.sent), sock.sent, Served(e.o, ReadFile(store, e.dir, path), 0));
      } else if kind == RESUME {
        var parsed := ParseResumeData(path);
        if parsed.None? {
          Answer(sock, [], TYPE_ERROR_R);
          return TYPE_ERROR_R;
        }
        var (resumePath, startOffset) := parsed.value;
        code := SendFileByBlocksFromOffset(e.o, sock, ReadFile(store, e.dir, resumePath), startOffset, readPlan);
        AllWritten(old(sock.sent), sock.sent, Served(e.o, ReadFile(store, e.dir, resumePath), startOffset));
      } else if kind == BYE {
        Answer(sock, Ascii("BYE\n"), NO_ERROR_R);
        return NO_ERROR_R;
      } else if kind == RM {
        Removal(store, path);
        Texts(path, 0);
        var r := disk.RemoveFile(e.dir, path);
        Answer(sock, RemovalText(path, r == 0), NO_ERROR_R);
        return NO_ERROR_R;
      } else if kind == PUT {
        Texts(path, 0);
        code := TakeUpload(conn, sock, path, false);
      } else if kind == UPDATE {
        var parsed := ParseUpdate(path);
        if parsed.None? {
          Answer(sock, [], TYPE_ERROR_R);
          return TYPE_ERROR_R;
        }
        var (forwardedType, forwardedPath) := parsed.value;
        if forwardedType == RM {
          Removal(store, forwardedPath);
          var r := disk.RemoveFile(e.dir, forwardedPath);
          if r == 0 {
            Answer(sock, Ascii("UPDATE RM OK\n"), NO_ERROR_R);
            return NO_ERROR_R;
          }
          Answer(sock, Ascii("UPDATE RM ERROR\n"), PATH_ERROR_R);
          return PATH_ERROR_R;
        }
        if forwardedType == PUT {
          ForwardedString(path);
          Texts(path, 0);
          code := TakeUpload(conn, sock, forwardedPath, true);
          return;
        }
        Answer(sock, [], TYPE_ERROR_R);
        return TYPE_ERROR_R;
      } else {
        Answer(sock, [], TYPE_ERROR_R);
        return TYPE_ERROR_R;
      }
    }

    /** The upload part of PUT and UPDATE: ready, the transfer, the outcome. */
    method TakeUpload(conn: Source, sock: Sink, path: bytes, update: bool) returns (code: int)
      requires Valid() && IsCString(path) && conn.Healthy() && Broken !in sock.plan
      modifies disk, conn, sock
      ensures Valid()
      ensures var up := ReceiveUpload(e, old(disk.store), path, old(conn.unread));
              && disk.store == up.store && code == up.code
              && sock.sent == old(sock.sent)
                   + Session.Reply(e, if update then Ascii("READY_UPDATE_PUT") else Ascii("READY_PUT"), 0)
                   + Outcome(update, up.code)
    {
      hide Session.Reply, ReceiveUpload, PutText, Ascii, Ready, WellFormed, Join, Canonical;
      Texts(path, 0);
      Answer(sock, Ready(update), NO_ERROR_R);
      code := ReceiveToPath(conn, path);
      if code == CLIENT_DISCONNECTED_R {
        assert sock.sent + [] == sock.sent;
        return;
      }
      Answer(sock, PutText(update, code % 256), code % 256);
    }

    /** What an upload is answered with, unless its client is gone. */
    function Outcome(update: bool, code: int): bytes {
      if code == CLIENT_DISCONNECTED_R then []
      else Session.Reply(e, PutText(update, code % 256), code % 256)
    }

    /** The texts an upload can be answered with. */
    lemma OutcomeIs(update: bool, code: int)
      ensures Outcome(update, CLIENT_DISCONNECTED_R) == []
      ensures Outcome(update, 0)
           == Session.Reply(e, if update then Ascii("UPDATE PUT OK\n") else Ascii("PUT completed successfully"), 0)
      ensures 0 < code < 256 && code != CLIENT_DISCONNECTED_R ==>
                Outcome(update, code)
                == Session.Reply(e, (if update then Ascii("UPDATE PUT ERROR ") else Ascii("PUT failed with error "))
                                    + Decimal(code), code)
    {
      hide Ascii, Session.Reply;
      if 0 < code < 256 {
        Texts([], code);
      }
      Texts([], 0);
    }

    /** Removing a path, as `Session` says it. */
    lemma Removal(s: Store, path: bytes)
      ensures var k := ReadKey(s, e.dir, path);
              && (k.Some? && k.value in s.files <==> ReadFile(s, e.dir, path).Some?)
              && RemovePath(s, e.dir, path) == if ReadFile(s, e.dir, path).Some? then Without(s, k.value) else s
    {
      hide ReadKey;
      var k := ReadKey(s, e.dir, path);
      if k.Some? && k.value !in s.files {
        assert s.files - {k.value} == s.files;
      }
    }
  }

  lemma AllWritten(before: bytes, after: bytes, data: bytes)
    ensures Wrote(before, after, data, true) ==> after == before + data
  {
  }

  lemma KeyIs(e: Env, path: bytes)
    ensures WriteKey(e.dir, e.rootPath, path).Some? ==> WriteKey(e.dir, e.rootPath, path).value == Components(path)
  {
  }

  /** A file opened, then filled, is a file written. */
  lemma StoredIs(s: Store, k: Key, data: bytes)
    ensures Opened(s, k).(files := Opened(s, k).files[k := data]) == Written(s, k, data)
    ensures WellFormed(Opened(s, k)) ==> WellFormed(Written(s, k, data))
  {
  }

  lemma ForwardedString(path: bytes)
    requires IsCString(path) && ParseUpdate(path).Some?
    ensures IsCString(ParseUpdate(path).value.1)
  {
    hide Strtol;
  }
}

/** Two downloads of one client that do not have file names of their own. */
module TransferShared {
  import opened Bytes
  import opened Message
  import opened ClientSpec
  import opened TransferFacts
  import opened Transfers
  import opened TransferServe
  import S = ServerSpec

  /** The response is for the download `oid` from the sender, and carries `data`. */
  ghost predicate Carries(c: Clt, m: Msg, oid: u64, src: Content, data: Content) {
    && c.st.AuthOk? && m.mtype == GETFILE_RES && |src| <= MAX_OFF && Downloads(c, m.src, oid, src)
    && Attrs(m) == [Attr(OFFERID, Be(oid, 8)), Attr(DATA, data)]
    && (data != [] ==> Piece(src, Entry(c, m.src, oid).offset, |data|, data))
  }

  /** The other download keeps its entry; only the files decide. */
  lemma OtherEntry(c: Clt, c': Clt, rid: u64, oid: u64, rid': u64, oid': u64, src': Content)
    requires Downloads(c, rid', oid', src') && (rid', oid') != (rid, oid)
    requires var k := FindTransfer(c.transfers, Download, rid, oid);
             && k < |c.transfers| == |c'.transfers| && c'.transfers == c.transfers[k := c'.transfers[k]]
             && (Matches(c'.transfers[k], Download, rid, oid) || c'.transfers[k].tact <= 0)
    ensures var d' := Entry(c, rid', oid');
            Downloads(c', rid', oid', src')
            <==> d'.part.value in c'.files && c'.files[d'.part.value] == c.files[d'.part.value]
  {
    hide FindTransfer, Matches;
    var t := c'.transfers[FindTransfer(c.transfers, Download, rid, oid)];
    EntryChanged(c.transfers, Download, rid, oid, t, Download, rid', oid');
  }

  /** A piece of one download that the disk takes leaves another intact if and only if the two have different
      part files, whatever the contents. */
  lemma SharedByPiece(c: Clt, m: Msg, env: Env, oid: u64, src: Content, data: Content, rid': u64, oid': u64,
          src': Content)
    requires Carries(c, m, oid, src, data) && data != [] && |data| <= env.disk && env.Ok()
    requires Downloads(c, rid', oid', src') && (rid', oid') != (m.src, oid)
    ensures Downloads(OnFileData(c, m, env).0, rid', oid', src')
            <==> Entry(c, rid', oid').part != Entry(c, m.src, oid).part
  {
    TakePiece(c, m, env, oid, src, data);
    hide FindTransfer, OnFileData, Attrs, Be, Chunk, GetFile;
    OtherEntry(c, OnFileData(c, m, env).0, m.src, oid, rid', oid', src');
  }

  lemma StillMatches(l: seq<Transfer>, rid: u64, oid: u64, t: Transfer)
    requires FindTransfer(l, Download, rid, oid) < |l| && t.tact > 0
    requires t == l[FindTransfer(l, Download, rid, oid)].(tact := t.tact, offset := t.offset, pos := t.pos)
    ensures Matches(t, Download, rid, oid)
  {
    hide FindTransfer;
  }

  /** After the piece the first download goes on, and the second has the same entry. */
  lemma PieceKeeps(c: Clt, m: Msg, env: Env, oid: u64, src: Content, data: Content, rid': u64, oid': u64)
    requires Carries(c, m, oid, src, data) && data != [] && |data| <= env.disk && env.Ok()
    requires FindTransfer(c.transfers, Download, rid', oid') < |c.transfers| && (rid', oid') != (m.src, oid)
    ensures var c' := OnFileData(c, m, env).0;
            var d := Entry(c, m.src, oid);
            && c'.st == c.st && Downloads(c', m.src, oid, src)
            && Entry(c', m.src, oid) == d.(tact := env.now, offset := d.offset + |data|, pos := Some(d.offset + |data|))
            && FindTransfer(c'.transfers, Download, rid', oid') < |c'.transfers|
            && Entry(c', rid', oid') == Entry(c, rid', oid')
  {
    hide FindTransfer, Matches, OnFileData, Attrs, Be, Chunk, GetFile;
    TakePiece(c, m, env, oid, src, data);
    var c' := OnFileData(c, m, env).0;
    var k := FindTransfer(c.transfers, Download, m.src, oid);
    StillMatches(c.transfers, m.src, oid, c'.transfers[k]);
    FindSame(c.transfers, k, c'.transfers[k], Download, m.src, oid);
    EntryChanged(c.transfers, Download, m.src, oid, c'.transfers[k], Download, rid', oid');
  }

  /** The closing response of one download renames its part file.  It leaves another intact if and only if that
      part file is not the other's, and the final name is not the other's part file, unless by chance it puts
      there what was there before. */
  lemma SharedByEnd(c: Clt, m: Msg, env: Env, oid: u64, src: Content, rid': u64, oid': u64, src': Content)
    requires Carries(c, m, oid, src, [])
    requires Downloads(c, rid', oid', src') && (rid', oid') != (m.src, oid)
    ensures var d, d' := Entry(c, m.src, oid), Entry(c, rid', oid');
            Downloads(OnFileData(c, m, env).0, rid', oid', src')
            <==> d'.part != d.part && (d'.part == d.name ==> src[..d.offset] == src'[..d'.offset])
  {
    TakeEnd(c, m, env, oid, src);
    var d := Entry(c, m.src, oid);
    assert |d.part.value| == |d.name.value| + |PART|;
    hide FindTransfer, OnFileData, Attrs, Be;
    OtherEntry(c, OnFileData(c, m, env).0, m.src, oid, rid', oid', src');
  }

  /** A piece that the disk does not take whole ends its download; it leaves another intact if and only if the
      part files differ or nothing was written. */
  lemma SharedByShort(c: Clt, m: Msg, env: Env, oid: u64, src: Content, data: Content, rid': u64, oid': u64,
          src': Content)
    requires Carries(c, m, oid, src, data) && data != [] && env.disk < |data|
    requires Downloads(c, rid', oid', src') && (rid', oid') != (m.src, oid)
    ensures Downloads(OnFileData(c, m, env).0, rid', oid', src')
            <==> Entry(c, rid', oid').part != Entry(c, m.src, oid).part || env.disk <= 0
  {
    TakeShort(c, m, env, oid, src, data);
    hide FindTransfer, OnFileData, Attrs, Be;
    OtherEntry(c, OnFileData(c, m, env).0, m.src, oid, rid', oid', src');
  }

  /** File names that keep two downloads apart: the part file of the second is neither file of the first. */
  ghost predicate OwnFile(d: Transfer, d': Transfer) { d'.part != d.part && d'.part != d.name }

  /** With file names of its own a download is safe from every response to another, of whatever kind and
      however the disk behaves. */
  lemma OwnFileIsSafe(c: Clt, m: Msg, env: Env, oid: u64, src: Content, data: Content, rid': u64, oid': u64,
          src': Content)
    requires Carries(c, m, oid, src, data) && env.Ok()
    requires Downloads(c, rid', oid', src') && (rid', oid') != (m.src, oid)
    requires OwnFile(Entry(c, m.src, oid), Entry(c, rid', oid'))
    ensures Downloads(OnFileData(c, m, env).0, rid', oid', src')
  {
    hide FindTransfer, OnFileData, Attrs, Be, Downloads, Piece;
    if data == [] {
      SharedByEnd(c, m, env, oid, src, rid', oid', src');
    } else if |data| <= env.disk {
      SharedByPiece(c, m, env, oid, src, data, rid', oid', src');
    } else {
      SharedByShort(c, m, env, oid, src, data, rid', oid', src');
    }
  }

  /** Without them: a piece, or the closing response of a complete download, breaks another download exactly if
      the part files are the same or, at the end, the final name is the other's part file, except that the
      other has just as much of the very same bytes. */
  lemma SharedPartFile(c: Clt, m: Msg, env: Env, oid: u64, src: Content, data: Content, rid': u64, oid': u64,
          src': Content)
    requires Carries(c, m, oid, src, data) && env.Ok() && |data| <= env.disk
    requires Downloads(c, rid', oid', src') && (rid', oid') != (m.src, oid)
    requires data == [] ==> Entry(c, m.src, oid).offset == |src|
    ensures var d, d' := Entry(c, m.src, oid), Entry(c, rid', oid');
            !Downloads(OnFileData(c, m, env).0, rid', oid', src')
            <==> d'.part == d.part || (data == [] && d'.part == d.name && src != src'[..d'.offset])
  {
    hide OnFileData, Attrs, Be, FindTransfer;
    if data == [] {
      SharedByEnd(c, m, env, oid, src, rid', oid', src');
      assert src[..|src|] == src;
    } else {
      SharedByPiece(c, m, env, oid, src, data, rid', oid', src');
    }
  }

  // ----- such downloads come about -----

  /** The same entry, with its files, at the start of its download. */
  ghost predicate Started(d: Transfer, d': Transfer) { d'.name == d.name && d'.part == d.part && d'.offset < d'.size }

  lemma OtherAcceptable(c: Clt, k: Key, k': Key, src: Content, src': Content, env: Env)
    requires env.Ok() && env.disk >= 0 && |src| <= MAX_OFF && (k'.p, k'.oid) != (k.p, k.oid)
    requires FindTransfer(c.transfers, Download, k.p, k.oid) < |c.transfers| && Acceptable(c, k, src)
    requires FindTransfer(c.transfers, Download, k'.p, k'.oid) < |c.transfers| && Acceptable(c, k', src')
    ensures var c' := AcceptOffer(c, k.p, k.oid, env).0;
            && FindTransfer(c'.transfers, Download, k'.p, k'.oid) < |c'.transfers| && Acceptable(c', k', src')
            && Downloads(c', k.p, k.oid, src) && Started(Entry(c, k.p, k.oid), Entry(c', k.p, k.oid))
            && Entry(c', k'.p, k'.oid) == Entry(c, k'.p, k'.oid)
  {
    Start(c, k.p, k.oid, env, src);
    hide FindTransfer, AcceptOffer, Matches, GetFile, Chunk;
    var c' := AcceptOffer(c, k.p, k.oid, env).0;
    var i := FindTransfer(c.transfers, Download, k.p, k.oid);
    EntryChanged(c.transfers, Download, k.p, k.oid, c'.transfers[i], Download, k'.p, k'.oid);
    var d, d' := Entry(c, k.p, k.oid), Entry(c, k'.p, k'.oid);
    if d'.part == d.part {
      var n := Entry(c', k.p, k.oid).offset;
      assert c'.files[d.part.value] == src[..n];
    }
  }

  /** Any two entries that can each be accepted can be accepted one after the other, also with one file name:
      nothing keeps the program from two downloads into one part file. */
  lemma TwoAccepts(c: Clt, k: Key, k': Key, src: Content, src': Content, env: Env, env': Env)
    requires env.Ok() && env.disk >= 0 && env'.Ok() && env'.disk >= 0 && |src| <= MAX_OFF && |src'| <= MAX_OFF
    requires (k'.p, k'.oid) != (k.p, k.oid)
    requires FindTransfer(c.transfers, Download, k.p, k.oid) < |c.transfers| && Acceptable(c, k, src)
    requires FindTransfer(c.transfers, Download, k'.p, k'.oid) < |c.transfers| && Acceptable(c, k', src')
    ensures var c' := AcceptOffer(AcceptOffer(c, k.p, k.oid, env).0, k'.p, k'.oid, env').0;
            && Downloads(c', k.p, k.oid, src) && Downloads(c', k'.p, k'.oid, src')
            && Started(Entry(c, k.p, k.oid), Entry(c', k.p, k.oid))
            && Started(Entry(c, k'.p, k'.oid), Entry(c', k'.p, k'.oid))
  {
    OtherAcceptable(c, k, k', src, src', env);
    hide AcceptOffer, FindTransfer;
    var c1 := AcceptOffer(c, k.p, k.oid, env).0;
    hide Acceptable;
    AcceptSpares(c1, k', k, src', src, env');
  }

  /** Accepting never harms a download that is running. */
  lemma AcceptSpares(c: Clt, k: Key, k': Key, src: Content, src': Content, env: Env)
    requires env.Ok() && env.disk >= 0 && |src| <= MAX_OFF && (k'.p, k'.oid) != (k.p, k.oid)
    requires FindTransfer(c.transfers, Download, k.p, k.oid) < |c.transfers| && Acceptable(c, k, src)
    requires Downloads(c, k'.p, k'.oid, src')
    ensures var c' := AcceptOffer(c, k.p, k.oid, env).0;
            && Downloads(c', k'.p, k'.oid, src') && Entry(c', k'.p, k'.oid) == Entry(c, k'.p, k'.oid)
            && Downloads(c', k.p, k.oid, src) && Started(Entry(c, k.p, k.oid), Entry(c', k.p, k.oid))
  {
    Start(c, k.p, k.oid, env, src);
    hide FindTransfer, AcceptOffer, Matches, GetFile, Chunk;
    var c' := AcceptOffer(c, k.p, k.oid, env).0;
    var i := FindTransfer(c.transfers, Download, k.p, k.oid);
    EntryChanged(c.transfers, Download, k.p, k.oid, c'.transfers[i], Download, k'.p, k'.oid);
    ExistingKept(c, k, src, env);
  }

  lemma ExistingKept(c: Clt, k: Key, src: Content, env: Env)
    requires env.disk >= 0
    requires FindTransfer(c.transfers, Download, k.p, k.oid) < |c.transfers| && Acceptable(c, k, src)
    ensures forall f <- c.files ::
              f in AcceptOffer(c, k.p, k.oid, env).0.files && AcceptOffer(c, k.p, k.oid, env).0.files[f] == c.files[f]
  {
    hide FindTransfer, GetFile, Chunk;
  }

  // ----- two instances -----

  /** An entry for one byte that client `p` offers under the name `name`. */
  function OneByte(p: u64, name: seq<byte>): Transfer {
    Transfer(Download, p, 1, Some(name), Some(name + PART), 1, 0, None, 1)
  }

  const CALM := Env(1, 0, 0, [], 0, 65376, 65376)

  /** A client that has accepted one byte from client 1 and one from client 2. */
  function Both(name: seq<byte>, name': seq<byte>): Clt {
    var c := Clt(S.AuthOk, [OneByte(1, name), OneByte(2, name')], [], [], map[], [], false);
    AcceptOffer(AcceptOffer(c, 1, 1, CALM).0, 2, 1, CALM).0
  }

  function FromFirst(data: Content): Msg { FileData(0, 0, 0, 1, data).(src := 1) }

  /** Two downloads of the bytes 5 and 6, at their start, with these file names. */
  ghost predicate Running(c: Clt, name: seq<byte>, name': seq<byte>) {
    && c.st.AuthOk? && Downloads(c, 1, 1, [5]) && Downloads(c, 2, 1, [6])
    && var d, d' := Entry(c, 1, 1), Entry(c, 2, 1);
       && d.offset == 0 && d.name == Some(name) && d.part == Some(name + PART)
       && d'.offset == 0 && d'.name == Some(name') && d'.part == Some(name' + PART)
  }

  lemma BothRun(name: seq<byte>, name': seq<byte>)
    ensures Running(Both(name, name'), name, name')
  {
    var c := Clt(S.AuthOk, [OneByte(1, name), OneByte(2, name')], [], [], map[], [], false);
    assert c.transfers[1..][0] == c.transfers[1];
    assert FindTransfer(c.transfers, Download, 1, 1) == 0 && FindTransfer(c.transfers, Download, 2, 1) == 1;
    TwoAccepts(c, Key(0, 1, 1), Key(0, 2, 1), [5], [6], CALM, CALM);
    hide FindTransfer, DownloadResume, DownloadWrite, GetFile;
  }

  lemma FirstCarries(c: Clt, data: Content)
    requires c.st.AuthOk? && Downloads(c, 1, 1, [5])
    requires data == if Entry(c, 1, 1).offset == 0 then [5] else []
    ensures Carries(c, FromFirst(data), 1, [5], data) && FromFirst(data).src == 1
  {
    hide FindTransfer, Tlv, EncAttr, Be;
    FileDataAttrs(0, 0, 0, 1, data);
  }

  lemma CalmIs()
    ensures CALM.Ok() && CALM.disk == 65376 == CALM.mem && CALM.now == 1
  {}

  /** The first piece of the first download. */
  lemma FirstPiece(c: Clt, name: seq<byte>, name': seq<byte>)
    requires Running(c, name, name')
    ensures var c1 := OnFileData(c, FromFirst([5]), CALM).0;
            && c1.st.AuthOk? && Downloads(c1, 1, 1, [5])
            && (Downloads(c1, 2, 1, [6]) <==> name + PART != name' + PART)
            && Entry(c1, 1, 1).offset == 1 && Entry(c1, 1, 1).name == Some(name)
            && Entry(c1, 1, 1).part == Some(name + PART)
            && FindTransfer(c1.transfers, Download, 2, 1) < |c1.transfers| && Entry(c1, 2, 1) == Entry(c, 2, 1)
  {
    CalmIs();
    FirstCarries(c, [5]);
    hide FindTransfer, OnFileData, FromFirst, Carries, Downloads;
    PieceKeeps(c, FromFirst([5]), CALM, 1, [5], [5], 2, 1);
    SharedPartFile(c, FromFirst([5]), CALM, 1, [5], [5], 2, 1, [6]);
  }

  /** The end of the first download. */
  lemma FirstEnd(c: Clt, name: seq<byte>, name': seq<byte>)
    requires c.st.AuthOk? && Downloads(c, 1, 1, [5]) && Downloads(c, 2, 1, [6])
    requires var d, d' := Entry(c, 1, 1), Entry(c, 2, 1);
             && d.offset == 1 && d.name == Some(name) && d.part == Some(name + PART)
             && d'.offset == 0 && d'.part == Some(name)
    ensures !Downloads(OnFileData(c, FromFirst([]), CALM).0, 2, 1, [6])
  {
    CalmIs();
    FirstCarries(c, []);
    hide FindTransfer, OnFileData, FromFirst, Carries, Downloads;
    SharedPartFile(c, FromFirst([]), CALM, 1, [5], [], 2, 1, [6]);
  }

  /** One file name from two peers: the first piece of one download breaks the other. */
  lemma SameNameBreaks(name: seq<byte>)
    ensures var c := Both(name, name);
            && Downloads(c, 1, 1, [5]) && Downloads(c, 2, 1, [6])
            && !Downloads(OnFileData(c, FromFirst([5]), CALM).0, 2, 1, [6])
  {
    BothRun(name, name);
    hide Both, OnFileData, FromFirst, Downloads;
    FirstPiece(Both(name, name), name, name);
  }

  /** The file names "x.part" and "x": the part files differ, and a piece does no harm, but the end of the first
      download replaces the part file of the second. */
  lemma FinalNameBreaks(name: seq<byte>)
    ensures var c := Both(name + PART, name);
            var c1 := OnFileData(c, FromFirst([5]), CALM).0;
            && Downloads(c, 1, 1, [5]) && Downloads(c, 2, 1, [6])
            && Downloads(c1, 1, 1, [5]) && Downloads(c1, 2, 1, [6])
            && !Downloads(OnFileData(c1, FromFirst([]), CALM).0, 2, 1, [6])
  {
    BothRun(name + PART, name);
    assert name + PART + PART != name + PART by { assert |PART| == 5; }
    hide Both, OnFileData, FromFirst, Downloads;
    var c := Both(name + PART, name);
    FirstPiece(c, name + PART, name);
    FirstEnd(OnFileData(c, FromFirst([5]), CALM).0, name + PART, name);
  }
}

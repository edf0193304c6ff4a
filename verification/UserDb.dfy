/** The user database (srvuserdb.c): a linked list of accounts, the id counter and the database file.

    `Db` is its state as a value, with one function per operation of the program; the class in
    Database.dfy is the program's in-place form, proved against those functions. */
module UserDb {
  import opened Bytes
  import opened UserFile

  /** List head first; `file` is `None` while no file can be opened for reading. */
  datatype Db = Db(list: seq<Entry>, nextId: u64, file: Option<seq<byte>>)

  const MAX_ID: u64 := 0xFFFF_FFFF_FFFF_FFFF

  /** `x + 1` in 64 bits */
  function Succ(x: u64): u64 { if x == MAX_ID then 0 else x + 1 }

  // ----- names -----

  predicate IsWord(c: byte) { 48 <= c <= 57 || 65 <= c <= 90 || 97 <= c <= 122 || c == 95 }

  predicate LineIsName(s: seq<byte>) { 3 <= |s| <= 31 && forall c <- s :: IsWord(c) }

  /** The name pattern is compiled with REG_NEWLINE, so it matches if any line of the name does. */
  predicate NameIsValid(s: seq<byte>) {
    var k := Find(s, LF);
    if k == |s| then LineIsName(s) else LineIsName(s[..k]) || NameIsValid(s[k + 1..])
  }

  // ----- list operations -----

  function IndexOf(l: seq<Entry>, name: seq<byte>): (k: nat)
    ensures k <= |l| && forall i | 0 <= i < k :: l[i].name != name
    ensures k < |l| ==> l[k].name == name
  {
    if l == [] || l[0].name == name then 0 else 1 + IndexOf(l[1..], name)
  }

  function Lookup(l: seq<Entry>, name: seq<byte>): Option<Entry> {
    var k := IndexOf(l, name);
    if k == |l| then None else Some(l[k])
  }

  function AddEntry_(d: Db, id: u64, name: seq<byte>, key: seq<byte>): (r: (Db, bool)) {
    if !NameIsValid(name) || Lookup(d.list, name).Some? then (d, false)
    else
      var eid := if id != 0 then id else d.nextId;
      (Db([Entry(eid, name, key)] + d.list, if eid >= d.nextId then Succ(eid) else d.nextId, d.file), true)
  }

  function DropEntry_(d: Db, name: seq<byte>): (r: (Db, bool)) {
    var k := IndexOf(d.list, name);
    if k == |d.list| then (d, false) else (d.(list := d.list[..k] + d.list[k + 1..]), true)
  }

  // ----- the file -----

  function LoadLine(d: Db, chunk: seq<byte>): Db {
    match ParseLine(chunk)
    case None => d
    case Some(e) => AddEntry_(d, e.id, e.name, e.key).0
  }

  function LoadLines(d: Db, text: seq<byte>): (r: Db)
    ensures r.file == d.file
    decreases |text|
  {
    if text == [] then d
    else var chunk := Fgets(text, LINE_SIZE); LoadLines(LoadLine(d, chunk), text[|chunk|..])
  }

  /** `udb_load`: does nothing while there is any account in memory. */
  function Load(d: Db): (r: Db)
    ensures r.file == d.file
  {
    if d.list != [] || d.file.None? then d else LoadLines(d, d.file.value)
  }

  /** `udb_save`: `ok` says whether the file could be opened for writing. */
  function Save(d: Db, ok: bool): Db {
    if ok then d.(file := Some(Render(d.list))) else d
  }

  // ----- public operations -----

  function LookupName(d: Db, name: seq<byte>): (Db, Option<Entry>) {
    var d' := Load(d);
    (d', Lookup(d'.list, name))
  }

  function AddEntry(d: Db, id: u64, name: seq<byte>, key: seq<byte>, ok: bool): (Db, bool) {
    var (d', added) := AddEntry_(Load(d), id, name, key);
    (Save(d', ok), added)
  }

  function DropEntry(d: Db, name: seq<byte>, ok: bool): (Db, bool) {
    var (d', dropped) := DropEntry_(Load(d), name);
    (if dropped then Save(d', ok) else d', dropped)
  }

  function GetTempId(d: Db): (Db, u64) {
    var d' := Load(d);
    (d'.(nextId := Succ(d'.nextId)), d'.nextId)
  }
}

/** The user database as the program keeps it: list, counter and file are updated in place
    (srvuserdb.c). */
module Database {
  import opened Bytes
  import opened UserFile
  import UserDb

  class Database {
    var list: seq<Entry>
    var nextId: u64
    var file: Option<seq<byte>>

    ghost function View(): UserDb.Db
      reads this
    {
      UserDb.Db(list, nextId, file)
    }

    constructor (file: Option<seq<byte>>)
      ensures View() == UserDb.Db([], 1, file)
    {
      list, nextId, this.file := [], 1, file;
    }

    method Lookup_(name: seq<byte>) returns (r: Option<Entry>)
      ensures r == UserDb.Lookup(list, name)
    {
      var p := 0;
      while p < |list|
        invariant p <= |list|
        invariant UserDb.IndexOf(list, name) == p + UserDb.IndexOf(list[p..], name)
      {
        if name == list[p].name {
          return Some(list[p]);
        }
        assert list[p..][1..] == list[p + 1..];
        p := p + 1;
      }
      return None;
    }

    method AddEntry_(id: u64, name: seq<byte>, key: seq<byte>) returns (r: Option<Entry>)
      modifies this
      ensures (View(), r.Some?) == UserDb.AddEntry_(old(View()), id, name, key)
      ensures r.Some? ==> r.value == list[0]
    {
      if !UserDb.NameIsValid(name) {
        return None;
      }
      var found := Lookup_(name);
      if found.Some? {
        return None;
      }
      var p := Entry(if id != 0 then id else nextId, name, key);
      if p.id >= nextId {
        nextId := UserDb.Succ(p.id);
      }
      list := [p] + list;
      return Some(p);
    }

    /** Unlinks the first account of that name. */
    method DropEntry_(name: seq<byte>) returns (r: int)
      modifies this
      ensures (View(), r == 0) == UserDb.DropEntry_(old(View()), name)
    {
      var p := 0;
      while p < |list|
        invariant p <= |list| && list == old(list)
        invariant UserDb.IndexOf(list, name) == p + UserDb.IndexOf(list[p..], name)
      {
        if name == list[p].name {
          list := list[..p] + list[p + 1..];
          return 0;
        }
        assert list[p..][1..] == list[p + 1..];
        p := p + 1;
      }
      return -1;
    }

    method Load_() returns (r: int)
      modifies this
      ensures View() == UserDb.Load(old(View()))
      ensures r == 0 <==> old(list) != [] || old(file).Some?
    {
      if list != [] {
        return 0;
      }
      if file.None? {
        return -1;
      }
      ghost var d0 := View();
      var fp := file.value;
      while fp != []
        invariant UserDb.LoadLines(View(), fp) == UserDb.LoadLines(d0, d0.file.value)
        decreases |fp|
      {
        var line := Fgets(fp, LINE_SIZE);
        fp := fp[|line|..];
        match ParseLine(line)
        case None =>
        case Some(e) =>
          var added := AddEntry_(e.id, e.name, e.key);
      }
      return 0;
    }

    method Save_(ok: bool) returns (r: int)
      modifies this`file
      ensures View() == UserDb.Save(old(View()), ok)
      ensures r == 0 <==> ok
    {
      if !ok {
        return -1;
      }
      var text, p := [], 0;
      while p < |list|
        invariant p <= |list| && View() == old(View())
        invariant text + Render(list[p..]) == Render(list)
      {
        RenderHead(list, p);
        text := text + RenderLine(list[p]);
        p := p + 1;
      }
      assert list[p..] == [] && text + [] == text;
      file := Some(text);
      return 0;
    }

    method LookupName(name: seq<byte>) returns (r: Option<Entry>)
      modifies this
      ensures (View(), r) == UserDb.LookupName(old(View()), name)
    {
      var loaded := Load_();
      r := Lookup_(name);
    }

    method AddEntry(id: u64, name: seq<byte>, key: seq<byte>, ok: bool) returns (u: Option<Entry>)
      modifies this
      ensures (View(), u.Some?) == UserDb.AddEntry(old(View()), id, name, key, ok)
    {
      var loaded := Load_();
      u := AddEntry_(id, name, key);
      var saved := Save_(ok);
    }

    method DropEntry(name: seq<byte>, ok: bool) returns (r: int)
      modifies this
      ensures (View(), r == 0) == UserDb.DropEntry(old(View()), name, ok)
    {
      var loaded := Load_();
      r := DropEntry_(name);
      if r == 0 {
        var saved := Save_(ok);
      }
    }

    method GetTempId() returns (id: u64)
      modifies this
      ensures (View(), id) == UserDb.GetTempId(old(View()))
    {
      var loaded := Load_();
      id := nextId;
      nextId := UserDb.Succ(nextId);
    }
  }

  lemma RenderHead(l: seq<Entry>, p: nat)
    requires p < |l|
    ensures Render(l[p..]) == RenderLine(l[p]) + Render(l[p + 1..])
  {
    assert l[p..][1..] == l[p + 1..];
  }
}

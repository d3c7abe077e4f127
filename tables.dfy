/** A database table as the model sees it: rows by primary key, plus the next key the store would
    generate for a row added without one. */
module Tables {
  import opened Wrappers
  import opened Domain

  datatype Table<T> = Table(rows: map<int, T>, next: int) {

    /** Every stored key lies below the next generated key, so a generated key is always free. */
    ghost predicate Valid() {
      next >= 1 && forall k :: k in rows ==> k < next
    }

    /** `FindAsync(id)`: the row stored under `id`, or null. */
    function Find(id: int): (r: Option<T>)
      ensures r.Some? <==> id in rows
      ensures r.Some? ==> r.value == rows[id]
    {
      if id in rows then Some(rows[id]) else None
    }

    /** The key a row added with id `id` is stored under: its own id, or, when it is 0 (the CLR
        default, read by the store as "not set"), a key the store generates. */
    function KeyFor(id: int): (k: int)
      requires Valid()
      ensures id != 0 ==> k == id
      ensures id == 0 ==> k >= 1 && k !in rows
    {
      if id != 0 then id else next
    }

    /** `DbSet.Add` followed by `SaveChanges`: the store refuses a key already in use. */
    function Add(key: int, row: T): (r: Result<Table<T>, Error>)
      requires Valid()
      ensures r.Ok? <==> key !in rows
      ensures r.Err? ==> r.error == DuplicateKey(key)
      ensures r.Ok? ==> r.value.Valid() && r.value.rows == rows[key := row]
    {
      if key in rows then Err(DuplicateKey(key))
      else Ok(Table(rows[key := row], if key >= next then key + 1 else next))
    }

    /** Writing a row over the one stored under `key`; `missing` is what is thrown when there is none. */
    function Overwrite(key: int, row: T, missing: Error): (r: Result<Table<T>, Error>)
      requires Valid()
      ensures r.Ok? <==> key in rows
      ensures r.Err? ==> r.error == missing
      ensures r.Ok? ==> r.value.Valid() && r.value.rows == rows[key := row] && r.value.rows.Keys == rows.Keys
    {
      if key in rows then Ok(Table(rows[key := row], next)) else Err(missing)
    }

    /** `Remove` after `FindAsync` found the row; nothing happens when there is none. */
    function Remove(key: int): (t: Table<T>)
      requires Valid()
      ensures t.Valid() && t.rows == rows - {key}
      ensures key !in rows ==> t == this
    {
      if key in rows then Table(rows - {key}, next) else this
    }
  }

  function EmptyTable<T>(): (t: Table<T>)
    ensures t.Valid() && t.rows == map[]
  {
    Table(map[], 1)
  }

  /** A row that was added is found under its key, and no other key changes. */
  lemma {:induction false} FindAfterAdd<T>(t: Table<T>, key: int, row: T, other: int)
    requires t.Valid() && t.Add(key, row).Ok?
    ensures t.Add(key, row).value.Find(key) == Some(row)
    ensures other != key ==> t.Add(key, row).value.Find(other) == t.Find(other)
  {
  }

  /** Removing a row that was just added gives the rows back as they were. */
  lemma {:induction false} RemoveAfterAdd<T>(t: Table<T>, key: int, row: T)
    requires t.Valid() && t.Add(key, row).Ok?
    ensures t.Add(key, row).value.Remove(key).rows == t.rows
  {
    assert t.Add(key, row).value.rows - {key} == t.rows;
  }
}

/**
 * The two SQLite tables the chat endpoint reads and writes, as a value:
 * `memory` (id, text) and `user_profile` (category, info), each with its
 * AUTOINCREMENT counter. Rows are kept in id order, which is also insertion
 * order; timestamps are not modelled.
 */
module Store {

  /** A row of the `memory` table. */
  datatype Memory = Memory(id: nat, text: string)

  /** A row of the `user_profile` table. */
  datatype ProfileRow = ProfileRow(category: string, info: string)

  datatype Store = Store(memories: seq<Memory>, profile: seq<ProfileRow>, nextMemoryId: nat)

  /** `id` is the table's primary key: ids are distinct and below the AUTOINCREMENT counter. */
  predicate ValidStore(st: Store) {
    && (forall i :: 0 <= i < |st.memories| ==> st.memories[i].id < st.nextMemoryId)
    && (forall i, j :: 0 <= i < j < |st.memories| ==> st.memories[i].id != st.memories[j].id)
  }

  /** add_memory: a new row with the next id. */
  function AddMemory(st: Store, text: string): (r: Store)
    requires ValidStore(st)
    ensures ValidStore(r)
    ensures r.memories == st.memories + [Memory(st.nextMemoryId, text)] && r.profile == st.profile
  {
    st.(memories := st.memories + [Memory(st.nextMemoryId, text)], nextMemoryId := st.nextMemoryId + 1)
  }

  /** add_profile_info: a new profile row, newest last. */
  function AddProfileInfo(st: Store, category: string, info: string): (r: Store)
    ensures r.profile == st.profile + [ProfileRow(category, info)]
    ensures r.memories == st.memories && r.nextMemoryId == st.nextMemoryId
  {
    st.(profile := st.profile + [ProfileRow(category, info)])
  }

  /** `DELETE FROM memory WHERE id=?`. */
  function DeleteMemory(mems: seq<Memory>, id: nat): (r: seq<Memory>)
    ensures |r| <= |mems|
    ensures forall i :: 0 <= i < |r| ==> r[i].id != id
  {
    if mems == [] then []
    else (if mems[0].id == id then [] else [mems[0]]) + DeleteMemory(mems[1..], id)
  }

  /** Deleting the id of the first row of a table with distinct ids removes just that row. */
  lemma {:induction false} DeleteFirst(mems: seq<Memory>)
    requires mems != []
    requires forall i, j :: 0 <= i < j < |mems| ==> mems[i].id != mems[j].id
    ensures DeleteMemory(mems, mems[0].id) == mems[1..]
  {
    KeepAll(mems[1..], mems[0].id);
  }

  /** Deleting an id that no row carries changes nothing. */
  lemma {:induction false} KeepAll(mems: seq<Memory>, id: nat)
    requires forall i :: 0 <= i < |mems| ==> mems[i].id != id
    ensures DeleteMemory(mems, id) == mems
  {
    if mems != [] {
      KeepAll(mems[1..], id);
    }
  }

  /** Deleting from the rows after a prefix leaves the prefix alone. */
  lemma {:induction false} DeleteAfter(front: seq<Memory>, back: seq<Memory>, id: nat)
    requires forall i :: 0 <= i < |front| ==> front[i].id != id
    ensures DeleteMemory(front + back, id) == front + DeleteMemory(back, id)
  {
    if front == [] {
      assert front + back == back;
    } else {
      assert (front + back)[0] == front[0];
      assert (front + back)[1..] == front[1..] + back;
      DeleteAfter(front[1..], back, id);
      calc {
        DeleteMemory(front + back, id);
        [front[0]] + DeleteMemory(front[1..] + back, id);
        [front[0]] + (front[1..] + DeleteMemory(back, id));
        { assert front == [front[0]] + front[1..]; }
        front + DeleteMemory(back, id);
      }
    }
  }

  /** get_profile: `ORDER BY id DESC`, the newest row first. */
  function NewestFirst(rows: seq<ProfileRow>): (r: seq<ProfileRow>)
    ensures |r| == |rows|
    ensures forall i :: 0 <= i < |rows| ==> r[i] == rows[|rows| - 1 - i]
  {
    if rows == [] then [] else [rows[|rows| - 1]] + NewestFirst(rows[..|rows| - 1])
  }
}

/** The byte sink the search writes to: the generic `W: Write` writer of
    `visit_path` and `search_file`, and the per-entry `Vec<u8>` buffers of the
    parallel directory walk. Its contents only ever grow. */
module Output {

  class Sink {
    /** Everything written so far, in order. */
    var data: string

    constructor ()
      ensures data == []
    {
      data := [];
    }

    /** `write_all`: appends `s` in full. */
    method Write(s: string)
      modifies this
      ensures data == old(data) + s
    {
      data := data + s;
    }
  }
}

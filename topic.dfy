/** The lockable resource domains of a transaction: chunk storage and index storage.
    Each is a marker type implementing the `Topic` trait in the crate; here they are
    the two constructors of one datatype. */
module Topics {

  datatype Topic = Chunks | Index
}

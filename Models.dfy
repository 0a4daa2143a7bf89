/** The records of the model: a fetched page and the two fields of an issue
    that the core reads. */
module Models {
  import opened Wrappers

  /** GitHubPage: one fetched page. The datatype's constructor is the Java
      constructor and its fields are the getters; a datatype value cannot be
      changed, as the Java fields are final. `None` stands for a null URL. */
  datatype Page<T> = Page(
    id: int,
    first: Option<string>,
    prev: Option<string>,
    next: Option<string>,
    last: Option<string>,
    entries: seq<T>)

  /** The parts of an issue the core uses: the id that keys the comment
      cache and the URL of its comments. */
  datatype Issue = Issue(id: int, number: int, commentsUrl: string)
}

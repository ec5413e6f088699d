/** Small shared vocabulary: an option type for Python's `None`, and a workout entry. */
module Common {

  /** A value that may be absent; `None` stands for Python's `None`. */
  datatype Option<+T> = None | Some(value: T)

  /**
   * One entry of a workout list `self.exercises`: the dictionary
   * `{"name", "link", "type", "body_part"}` built when a workout is previewed.
   */
  datatype Entry = Entry(name: string, link: Option<string>, kind: Option<string>, bodyPart: Option<string>)
}

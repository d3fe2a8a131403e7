module Messages {
  datatype Option<+T> = None | Some(value: T)

  /** What threading keeps of a message: the source's sort cache entry.
      `subject` is the base subject, `refwd` tells whether the original subject
      was a reply or a forward, and `generated` is the unique string made up
      for a message whose id is missing or already taken. */
  datatype Message = Message(num: nat, date: nat, subject: string, refwd: bool,
                             messageId: Option<string>, generated: string,
                             references: seq<string>)
}

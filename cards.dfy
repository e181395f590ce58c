/** The card record the dashboard holds and renders. */
module Cards {

  /** A generated flashcard; `tags` is absent when the endpoint sent none. */
  datatype Flashcard = Flashcard(question: string, answer: string, tags: Option<seq<string>>)

  datatype Option<+T> = None | Some(value: T)
}

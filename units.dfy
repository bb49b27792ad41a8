/** The atomic building block of the adventure: one story node. */
module Units {
  import opened Wrappers

  /** A node of the story tree. `parentId == None` marks a root. */
  datatype Unit = Unit(
    id: string,
    parentId: Option<string>,
    choiceText: string,
    storyText: string)
}

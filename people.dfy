/** The `{ id, name, avatar }` records that projects and documents list as
    members, authors and contributors. */
module People {
  datatype Person = Person(id: string, name: string, avatar: string)
}

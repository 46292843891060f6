/** Book records of the catalog and the constants the list view shares. */
module Catalog {

  datatype Option<T> = None | Some(value: T)

  /** One book record as the list view reads it. The publication date is kept
      as the year it yields; the image and description are opaque strings. */
  datatype Book = Book(
    id: string,
    title: string,
    author: string,
    genres: seq<string>,
    image: string,
    description: string,
    year: int)

  /** Page size of the list (BOOKS_PER_PAGE); also the end of the initial range. */
  const BooksPerPage: nat := 36

  /** The sentinel value of the author and genre selects meaning "no constraint". */
  const Any: string := "any"
}

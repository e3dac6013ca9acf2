/** The values the client exchanges with the movie API: the movie record and
    the requests the handlers issue. */
module Movies {

  datatype Option<T> = None | Some(value: T)

  /** A movie record as the API returns it. `posterPath` and `overview` are
      optional and only carried through to the detail panel. */
  datatype Movie = Movie(
    id: int,
    title: string,
    watched: bool,
    posterPath: Option<string>,
    overview: Option<string>)

  /** The HTTP calls a handler starts: `GET /movies`, `POST /movies` with a
      title, `DELETE /movies/:id` and `PATCH /movies/:id/toggle`. */
  datatype Request =
    | ListMovies
    | CreateMovie(title: string)
    | DeleteMovie(id: int)
    | ToggleMovie(id: int)
}

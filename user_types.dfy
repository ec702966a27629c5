/** The user directory's entities: an account with its role, and a named
    circular office fence. */
module UserTypes {
  import opened Seqs

  datatype Role = Admin | Employee

  datatype User = User(
    id: string,
    email: string,
    firstName: string,
    lastName: string,
    role: Role,
    department: string,
    position: string,
    profileImage: Option<string>)

  /** A circular region: centre in degrees, radius in metres. */
  datatype GeoFence = GeoFence(name: string, latitude: real, longitude: real, radiusMeters: real)
}

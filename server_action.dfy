/** What a server action hands back to the framework: the paths it revalidates, or an error it throws. */
module ServerAction {
  datatype ActionResult = Revalidated(paths: seq<string>) | Thrown(message: string)

  const UnauthorizedMessage: string := "Unauthorized"
}

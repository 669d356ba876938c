/**
 The screens the shell routes between, and what a handler asks the router to do.
 Each handler's navigation is kept as an outcome value; the delay before it, and
 any redirect still pending from an earlier press, are not modelled.
 */
module Navigation {

  datatype Screen = LoginScreen | RegisterScreen | HomeScreen

  datatype Nav = Stay | NavigateTo(screen: Screen)
}

/** The input and output records of the use-case layer (usecase/input and
    usecase/output). */
module Ports {
  import opened Common

  datatype RegisterInput = RegisterInput(email: string, password: string, name: string)
  datatype LoginInput = LoginInput(email: string, password: string)
  datatype VerifyEmailInput = VerifyEmailInput(token: string)
  datatype RefreshTokenInput = RefreshTokenInput(refreshToken: string)

  datatype CreateTodoInput = CreateTodoInput(
    title: string,
    description: string,
    isPublic: bool,
    dueDate: Option<int>)

  datatype UpdateTodoInput = UpdateTodoInput(
    id: string,
    title: string,
    description: string,
    completed: bool,
    isPublic: bool,
    dueDate: Option<int>)

  datatype UpdateUserInput = UpdateUserInput(name: string)

  datatype RegisterOutput = RegisterOutput(userId: string, tenantId: string, email: string, message: string)

  datatype LoginOutput = LoginOutput(
    accessToken: string,
    refreshToken: string,
    userId: string,
    tenantId: string,
    email: string,
    name: string,
    role: string)

  datatype RefreshTokenOutput = RefreshTokenOutput(accessToken: string, refreshToken: string)

  datatype VerifyEmailOutput = VerifyEmailOutput(success: bool, message: string)

  datatype TodoOutput = TodoOutput(
    id: string,
    userId: string,
    title: string,
    description: string,
    completed: bool,
    isPublic: bool,
    dueDate: Option<int>,
    completedAt: Option<int>,
    createdAt: int,
    updatedAt: int)

  datatype UserOutput = UserOutput(
    id: string,
    tenantId: string,
    email: string,
    name: string,
    role: string,
    emailVerified: bool,
    createdAt: int,
    updatedAt: int)
}
